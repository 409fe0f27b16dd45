/** The async mutex of src/sync/mutex.rs: every compare-exchange, store, push and pop is one
    step, and a run is any sequence of steps by any number of lock futures and guards. */
module AsyncMutex {
  import opened Wakers

  datatype Pc =
    | Parked      // between polls
    | AtCheck     // about to try the lock for the first time in this poll
    | AtPush      // about to queue the waker
    | AtRecheck   // about to try the lock again
    | Granted
    | Dropped

  /** `awake`: a waker of this future has been woken since its last poll began.
      `guards` counts the live guards of this future, more than one after a clone. */
  datatype Fut = Fut(pc: Pc, polls: nat, awake: bool, guards: nat) {
    predicate Waits() { pc == Parked && polls > 0 }
    predicate Asleep() { Waits() && !awake }
    predicate Active() { pc == AtCheck || pc == AtPush || pc == AtRecheck || (Waits() && awake) }
  }

  /** `releases` counts the guard drops that have unlocked but not yet popped a waker. */
  datatype State = State(locked: bool, queue: seq<Token>, futs: seq<Fut>, releases: nat, woken: set<Token>)

  datatype Step =
    | Create
    | PopWake
    | BeginPoll(fut: nat)
    | Check(fut: nat)
    | Push(fut: nat)
    | Recheck(fut: nat)
    | DropFuture(fut: nat)
    | CloneGuard(fut: nat)
    | DropGuard(fut: nat)

  const INIT := State(false, [], [], 0, {})

  function WithFut(s: State, i: nat, f: Fut): State
    requires i < |s.futs|
  {
    s.(futs := s.futs[i := f])
  }

  /** A compare-exchange of `locked` from false to true. */
  function TryLock(s: State, i: nat, otherwise: Pc): State
    requires i < |s.futs|
  {
    if s.locked then WithFut(s, i, s.futs[i].(pc := otherwise))
    else WithFut(s, i, s.futs[i].(pc := Granted, guards := s.futs[i].guards + 1)).(locked := true)
  }

  /** Waking reaches the task unless its future is done with the lock. */
  function Wake(s: State, t: Token): State {
    var s := s.(woken := s.woken + {t});
    if t.fut < |s.futs| && s.futs[t.fut].pc != Granted && s.futs[t.fut].pc != Dropped
    then WithFut(s, t.fut, s.futs[t.fut].(awake := true))
    else s
  }

  function Apply(s: State, step: Step): State {
    match step
    case Create => s.(futs := s.futs + [Fut(Parked, 0, false, 0)])
    case PopWake =>
      if s.releases == 0 then s
      else if s.queue == [] then s.(releases := s.releases - 1)
      else Wake(s, s.queue[0]).(queue := s.queue[1..], releases := s.releases - 1)
    case _ => if step.fut < |s.futs| then ApplyFut(s, step.fut, step) else s
  }

  function ApplyFut(s: State, i: nat, step: Step): State
    requires i < |s.futs|
  {
    var f := s.futs[i];
    match step
    case BeginPoll(_) =>
      if f.pc != Parked then s else WithFut(s, i, f.(pc := AtCheck, polls := f.polls + 1, awake := false))
    case Check(_) =>
      if f.pc != AtCheck then s else TryLock(s, i, AtPush)
    case Push(_) =>
      if f.pc != AtPush then s
      else WithFut(s, i, f.(pc := AtRecheck)).(queue := s.queue + [Token(i, f.polls)])
    case Recheck(_) =>
      if f.pc != AtRecheck then s else TryLock(s, i, Parked)
    case DropFuture(_) =>
      if f.pc != Parked && f.pc != Granted then s else WithFut(s, i, f.(pc := Dropped))
    case CloneGuard(_) =>
      if f.guards == 0 then s else WithFut(s, i, f.(guards := f.guards + 1))
    case DropGuard(_) =>
      if f.guards == 0 then s
      else WithFut(s, i, f.(guards := f.guards - 1)).(locked := false, releases := s.releases + 1)
    case _ => s
  }

  function Exec(s: State, steps: seq<Step>): State {
    if steps == [] then s
    else Apply(Exec(s, steps[..|steps| - 1]), steps[|steps| - 1])
  }

  lemma ExecSnoc(s: State, steps: seq<Step>, step: Step)
    ensures Exec(s, steps + [step]) == Apply(Exec(s, steps), step)
  {
    assert (steps + [step])[..|steps|] == steps;
  }

  // ---------- exclusion ----------

  predicate Clones(s: State, step: Step) {
    step.CloneGuard? && step.fut < |s.futs| && s.futs[step.fut].guards > 0
  }

  ghost predicate CloneFree(s: State, steps: seq<Step>) {
    forall k :: 0 <= k < |steps| ==> !Clones(Exec(s, steps[..k]), steps[k])
  }

  /** At most one future holds guards. */
  ghost predicate Exclusive(s: State) {
    forall i, j :: 0 <= i < |s.futs| && 0 <= j < |s.futs| && s.futs[i].guards > 0 && s.futs[j].guards > 0 ==> i == j
  }

  /** Without clones `locked` says that there is one guard, and there are no others. */
  ghost predicate Sound(s: State) {
    && Exclusive(s)
    && (forall i :: 0 <= i < |s.futs| ==> s.futs[i].guards <= 1)
    && (forall i :: 0 <= i < |s.futs| && s.futs[i].guards > 0 ==> s.locked)
  }

  lemma FutSound(s: State, i: nat, step: Step)
    requires Sound(s) && !Clones(s, step) && i < |s.futs| && !step.Create? && !step.PopWake? && step.fut == i
    ensures Sound(ApplyFut(s, i, step))
  {
  }

  lemma ApplySound(s: State, step: Step)
    requires Sound(s) && !Clones(s, step)
    ensures Sound(Apply(s, step))
  {
    if !step.Create? && !step.PopWake? && step.fut < |s.futs| {
      FutSound(s, step.fut, step);
    }
  }

  lemma {:induction false} ExecSound(s: State, steps: seq<Step>)
    requires Sound(s) && CloneFree(s, steps)
    ensures Sound(Exec(s, steps))
  {
    if steps != [] {
      var prefix := steps[..|steps| - 1];
      assert forall k :: 0 <= k < |prefix| ==> prefix[..k] == steps[..k];
      ExecSound(s, prefix);
      ApplySound(Exec(s, prefix), steps[|steps| - 1]);
    }
  }

  ghost predicate StaysExclusive(s: State) {
    forall more {:trigger Exec(s, more)} :: CloneFree(s, more) ==> Exclusive(Exec(s, more))
  }

  /** A guard of the cloned acquisition is dropped and another future locks. */
  lemma CloneLetsIn(s: State, i: nat) returns (more: seq<Step>)
    requires i < |s.futs| && s.futs[i].guards == 2
    ensures CloneFree(s, more) && !Exclusive(Exec(s, more))
  {
    var n := |s.futs|;
    more := [DropGuard(i), Create, BeginPoll(n), Check(n)];
    ExecSnoc(s, [], DropGuard(i));
    ExecSnoc(s, [DropGuard(i)], Create);
    ExecSnoc(s, [DropGuard(i), Create], BeginPoll(n));
    ExecSnoc(s, [DropGuard(i), Create, BeginPoll(n)], Check(n));
    assert more[..0] == [];
    assert [] + [DropGuard(i)] == [DropGuard(i)];
    assert [DropGuard(i)] + [Create] == [DropGuard(i), Create];
    assert [DropGuard(i), Create] + [BeginPoll(n)] == [DropGuard(i), Create, BeginPoll(n)];
    assert more == [DropGuard(i), Create, BeginPoll(n)] + [Check(n)];
    var t := Exec(s, more);
    assert t.futs[i].guards == 1 && t.futs[n].guards == 1;
  }

  /** After a run without clones, one more step leaves the mutex exclusive in every
      clone-free continuation exactly when that step is not the clone of a live guard. */
  lemma ExclusionExact(steps: seq<Step>, step: Step)
    requires CloneFree(INIT, steps)
    ensures StaysExclusive(Apply(Exec(INIT, steps), step)) <==> !Clones(Exec(INIT, steps), step)
  {
    var s := Exec(INIT, steps);
    ExecSound(INIT, steps);
    if Clones(s, step) {
      var more := CloneLetsIn(Apply(s, step), step.fut);
    } else {
      ApplySound(s, step);
      forall more | CloneFree(Apply(s, step), more) ensures Exclusive(Exec(Apply(s, step), more)) {
        ExecSound(Apply(s, step), more);
      }
    }
  }

  /** The first future locks and its guard is cloned. */
  lemma CloneBreaksExclusion()
    ensures var run := [Create, BeginPoll(0), Check(0)];
            && CloneFree(INIT, run) && Clones(Exec(INIT, run), CloneGuard(0))
            && !StaysExclusive(Apply(Exec(INIT, run), CloneGuard(0)))
  {
    var run := [Create, BeginPoll(0), Check(0)];
    ExecSnoc(INIT, [], Create);
    ExecSnoc(INIT, [Create], BeginPoll(0));
    ExecSnoc(INIT, [Create, BeginPoll(0)], Check(0));
    assert [] + [Create] == [Create] && [Create] + [BeginPoll(0)] == [Create, BeginPoll(0)];
    assert run == [Create, BeginPoll(0)] + [Check(0)];
    ExclusionExact(run, CloneGuard(0));
  }

  // ---------- check, register, recheck ----------

  ghost predicate Known(s: State, t: Token) {
    t in s.queue || t in s.woken
  }

  ghost predicate WakersOk(s: State) {
    && (forall i :: 0 <= i < |s.futs| && (s.futs[i].pc == AtRecheck || s.futs[i].Waits()) ==>
        Known(s, Token(i, s.futs[i].polls)))
    && (forall i :: 0 <= i < |s.futs| && Token(i, s.futs[i].polls) in s.woken
          ==> s.futs[i].awake || s.futs[i].pc == Granted || s.futs[i].pc == Dropped)
    && (forall t :: Known(s, t) ==> t.fut < |s.futs| && 0 < t.poll <= s.futs[t.fut].polls)
    && (forall i :: 0 <= i < |s.futs| && s.futs[i].pc != Parked && s.futs[i].pc != Dropped ==> s.futs[i].polls > 0)
  }

  lemma WakeOk(s: State, t: Token)
    requires t.fut < |s.futs|
    ensures var u := Wake(s, t);
            && |u.futs| == |s.futs| && u.queue == s.queue && u.woken == s.woken + {t}
            && (forall i :: 0 <= i < |s.futs| ==> u.futs[i] == s.futs[i].(awake := u.futs[i].awake))
            && (forall i :: 0 <= i < |s.futs| && s.futs[i].awake ==> u.futs[i].awake)
            && (u.futs[t.fut].awake || s.futs[t.fut].pc == Granted || s.futs[t.fut].pc == Dropped)
  {
  }

  lemma PopWakersOk(s: State)
    requires WakersOk(s)
    ensures WakersOk(Apply(s, PopWake))
  {
    if s.releases > 0 && s.queue != [] {
      WakeOk(s, s.queue[0]);
      assert s.queue == [s.queue[0]] + s.queue[1..];
    }
  }

  lemma FutWakersOk(s: State, i: nat, step: Step)
    requires WakersOk(s) && i < |s.futs|
    ensures WakersOk(ApplyFut(s, i, step))
  {
    var t := ApplyFut(s, i, step);
    assert t.woken == s.woken;
    assert t.queue == s.queue || t.queue == s.queue + [Token(i, s.futs[i].polls)];
  }

  lemma {:induction false} ExecWakersOk(steps: seq<Step>)
    ensures WakersOk(Exec(INIT, steps))
  {
    if steps != [] {
      var prefix := steps[..|steps| - 1];
      ExecWakersOk(prefix);
      var s, step := Exec(INIT, prefix), steps[|steps| - 1];
      if step.PopWake? {
        PopWakersOk(s);
      } else if !step.Create? && step.fut < |s.futs| {
        FutWakersOk(s, step.fut, step);
      }
    }
  }

  /** From the recheck of a poll that returns Pending on, and so at every release made
      since, the waker of that poll is queued or already woken. */
  lemma PendingIsKnown(steps: seq<Step>, i: nat)
    requires i < |Exec(INIT, steps).futs|
    requires Exec(INIT, steps).futs[i].pc == AtRecheck || Exec(INIT, steps).futs[i].Waits()
    ensures Known(Exec(INIT, steps), Token(i, Exec(INIT, steps).futs[i].polls))
  {
    ExecWakersOk(steps);
  }

  // ---------- a free lock over sleeping futures ----------

  /** A wake that no waiting future gets: its future was granted or dropped before the wake,
      or is dropped after it without being polled. */
  predicate Absorbs(s: State, step: Step) {
    match step
    case PopWake =>
      s.releases > 0 && s.queue != [] && s.queue[0].fut < |s.futs|
      && (s.futs[s.queue[0].fut].pc == Granted || s.futs[s.queue[0].fut].pc == Dropped)
    case DropFuture(i) => i < |s.futs| && s.futs[i].Waits() && s.futs[i].awake
    case _ => false
  }

  /** The lock is not left free with a future asleep and nobody on the way to take it. */
  ghost predicate NotStranded(s: State) {
    || s.locked
    || s.releases > 0
    || (forall i :: 0 <= i < |s.futs| ==> !s.futs[i].Asleep())
    || (exists i :: 0 <= i < |s.futs| && s.futs[i].Active())
  }

  lemma PopNotStranded(s: State)
    requires WakersOk(s) && NotStranded(s) && !Absorbs(s, PopWake)
    ensures NotStranded(Apply(s, PopWake))
  {
    if s.releases > 0 && s.queue != [] {
      var t := s.queue[0];
      assert Known(s, t);
      if s.futs[t.fut].pc == Parked {
        assert Apply(s, PopWake).futs[t.fut].Active();
      } else {
        assert Apply(s, PopWake).futs[t.fut].Active();
      }
    }
  }

  lemma FutNotStranded(s: State, i: nat, step: Step)
    requires NotStranded(s) && i < |s.futs| && !Absorbs(s, step)
    requires !step.Create? && !step.PopWake? && step.fut == i
    ensures NotStranded(ApplyFut(s, i, step))
  {
    var t := ApplyFut(s, i, step);
    assert forall j :: 0 <= j < |s.futs| && j != i ==> t.futs[j] == s.futs[j];
    if t != s && !step.DropFuture? && !step.CloneGuard? {
      assert t.locked || t.releases > 0 || t.futs[i].Active();
    }
  }

  lemma StepNotStranded(s: State, step: Step)
    requires WakersOk(s) && NotStranded(s) && !Absorbs(s, step)
    ensures NotStranded(Apply(s, step))
  {
    if step.PopWake? {
      PopNotStranded(s);
    } else if step.Create? {
      assert forall i :: 0 <= i < |s.futs| ==> Apply(s, step).futs[i] == s.futs[i];
    } else if step.fut < |s.futs| {
      FutNotStranded(s, step.fut, step);
    }
  }

  // ---------- exactly when a sleeper is stranded ----------

  /** An absorbed wake that was the last hope of a sleeper: the lock is free, no release is
      about to wake anybody else, some future sleeps, and none but the one that absorbs the
      wake is on its way. */
  ghost predicate Strands(s: State, step: Step) {
    && Absorbs(s, step)
    && !s.locked && s.releases == (if step.PopWake? then 1 else 0)
    && (exists i :: 0 <= i < |s.futs| && s.futs[i].Asleep())
    && (forall i :: 0 <= i < |s.futs| && s.futs[i].Active() ==> step == DropFuture(i))
  }

  lemma AbsorbedPop(s: State)
    requires Absorbs(s, PopWake)
    ensures Apply(s, PopWake).locked == s.locked && Apply(s, PopWake).futs == s.futs
    ensures Apply(s, PopWake).releases == s.releases - 1
  {
  }

  lemma AbsorbedDrop(s: State, i: nat)
    requires Absorbs(s, DropFuture(i))
    ensures Apply(s, DropFuture(i)) == WithFut(s, i, s.futs[i].(pc := Dropped))
    ensures s.futs[i].Active() && !s.futs[i].Asleep()
  {
  }

  lemma AbsorbingStrands(s: State, step: Step)
    requires NotStranded(s) && Absorbs(s, step)
    ensures NotStranded(Apply(s, step)) <==> !Strands(s, step)
  {
    var t := Apply(s, step);
    if step.PopWake? {
      AbsorbedPop(s);
    } else {
      var i := step.fut;
      AbsorbedDrop(s, i);
      assert forall j :: 0 <= j < |s.futs| && j != i ==> t.futs[j] == s.futs[j];
      assert !t.futs[i].Active() && !t.futs[i].Asleep();
    }
  }

  /** A step strands a sleeper exactly when it absorbs the last wake. */
  lemma StrandingStep(s: State, step: Step)
    requires WakersOk(s) && NotStranded(s)
    ensures NotStranded(Apply(s, step)) <==> !Strands(s, step)
  {
    if Absorbs(s, step) {
      AbsorbingStrands(s, step);
    } else {
      StepNotStranded(s, step);
    }
  }

  lemma StepAt(steps: seq<Step>, k: nat)
    requires k < |steps|
    ensures Exec(INIT, steps[..k + 1]) == Apply(Exec(INIT, steps[..k]), steps[k])
  {
    assert steps[..k + 1][..k] == steps[..k];
  }

  lemma {:induction false} UnstrandedUpTo(steps: seq<Step>, n: nat)
    requires n <= |steps| && forall k :: 0 <= k < n ==> !Strands(Exec(INIT, steps[..k]), steps[k])
    ensures NotStranded(Exec(INIT, steps[..n]))
  {
    if n > 0 {
      UnstrandedUpTo(steps, n - 1);
      ExecWakersOk(steps[..n - 1]);
      StrandingStep(Exec(INIT, steps[..n - 1]), steps[n - 1]);
      StepAt(steps, n - 1);
    }
  }

  lemma StrandedAfter(steps: seq<Step>, k: nat)
    requires k < |steps| && NotStranded(Exec(INIT, steps[..k])) && NotStranded(Exec(INIT, steps[..k + 1]))
    ensures !Strands(Exec(INIT, steps[..k]), steps[k])
  {
    ExecWakersOk(steps[..k]);
    StrandingStep(Exec(INIT, steps[..k]), steps[k]);
    StepAt(steps, k);
  }

  /** At no point of a run is a free lock left with a future asleep and nobody on the way to
      it, exactly if no step of the run absorbs the last wake of a sleeper. */
  lemma FreeLockIsNoticed(steps: seq<Step>)
    ensures (forall k :: 0 <= k <= |steps| ==> NotStranded(Exec(INIT, steps[..k])))
       <==> (forall k :: 0 <= k < |steps| ==> !Strands(Exec(INIT, steps[..k]), steps[k]))
  {
    if forall k :: 0 <= k < |steps| ==> !Strands(Exec(INIT, steps[..k]), steps[k]) {
      forall n | 0 <= n <= |steps| ensures NotStranded(Exec(INIT, steps[..n])) {
        UnstrandedUpTo(steps, n);
      }
    }
    if forall k :: 0 <= k <= |steps| ==> NotStranded(Exec(INIT, steps[..k])) {
      forall k | 0 <= k < |steps| ensures !Strands(Exec(INIT, steps[..k]), steps[k]) {
        assert NotStranded(Exec(INIT, steps[..k + 1]));
        StrandedAfter(steps, k);
      }
    }
  }

  // ---------- a stale waker absorbs the only wake ----------

  function Apply2(s: State, a: Step, b: Step): State {
    Apply(Apply(s, a), b)
  }

  /** A run of neither guard clones nor future drops. */
  ghost predicate Plain(run: seq<Step>) {
    forall k :: 0 <= k < |run| ==> !run[k].CloneGuard? && !run[k].DropFuture?
  }

  ghost predicate Reaches(s: State) {
    exists run :: Plain(run) && Exec(INIT, run) == s
  }

  lemma Extend(s: State, a: Step, b: Step)
    requires Reaches(s) && Plain([a, b])
    ensures Reaches(Apply2(s, a, b))
  {
    var before :| Plain(before) && Exec(INIT, before) == s;
    var run := before + [a] + [b];
    ExecSnoc(INIT, before + [a], b);
    ExecSnoc(INIT, before, a);
    assert [a, b][0] == a && [a, b][1] == b;
    assert Plain(run);
  }

  /** Future 0 unlocks between the two checks of future 1, whose waker stays queued though
      it got the lock; future 2 then waits behind that waker. */
  function Stale(block: nat): State {
    var f0, f1 := Fut(Granted, 1, false, 1), Fut(AtPush, 1, false, 0);
    if block == 0 then State(true, [], [f0, f1], 0, {})
    else
      var f0, f1 := f0.(guards := 0), f1.(pc := Granted, guards := 1);
      if block == 1 then State(true, [Token(1, 1)], [f0, f1], 0, {})
      else
        var f2 := Fut(Parked, 1, false, 0);
        if block == 2 then State(true, [Token(1, 1), Token(2, 1)], [f0, f1, f2], 0, {})
        else State(false, [Token(2, 1)], [f0, f1.(guards := 0), f2], 0, {Token(1, 1)})
  }

  lemma Stale0()
    ensures Apply2(Apply2(Apply2(INIT, Create, BeginPoll(0)), Check(0), Create), BeginPoll(1), Check(1)) == Stale(0)
  {
    assert Apply2(INIT, Create, BeginPoll(0)).futs == [Fut(AtCheck, 1, false, 0)];
  }

  lemma Stale1()
    ensures Apply2(Apply2(Stale(0), DropGuard(0), PopWake), Push(1), Recheck(1)) == Stale(1)
  {
  }

  lemma Stale2()
    ensures Apply2(Apply2(Apply2(Stale(1), Create, BeginPoll(2)), Check(2), Push(2)), Recheck(2), Recheck(2))
        == Stale(2)
  {
    assert Apply2(Stale(1), Create, BeginPoll(2)).futs == Stale(1).futs + [Fut(AtCheck, 1, false, 0)];
  }

  lemma Stale3()
    ensures Apply2(Stale(2), DropGuard(1), PopWake) == Stale(3)
  {
  }

  lemma StaleRun0()
    ensures Reaches(Stale(0))
  {
    assert Reaches(INIT) by { assert Plain([]) && Exec(INIT, []) == INIT; }
    var a := Apply2(INIT, Create, BeginPoll(0));
    Extend(INIT, Create, BeginPoll(0));
    Extend(a, Check(0), Create);
    Extend(Apply2(a, Check(0), Create), BeginPoll(1), Check(1));
    Stale0();
  }

  lemma StaleRun1()
    ensures Reaches(Stale(1))
  {
    StaleRun0();
    Extend(Stale(0), DropGuard(0), PopWake);
    Extend(Apply2(Stale(0), DropGuard(0), PopWake), Push(1), Recheck(1));
    Stale1();
  }

  lemma StaleRun2()
    ensures Reaches(Stale(2))
  {
    StaleRun1();
    var b := Apply2(Stale(1), Create, BeginPoll(2));
    Extend(Stale(1), Create, BeginPoll(2));
    Extend(b, Check(2), Push(2));
    Extend(Apply2(b, Check(2), Push(2)), Recheck(2), Recheck(2));
    Stale2();
  }

  /** Hand-off fails in the source: a run without clones and without any dropped future ends
      with the lock free, no release under way, and a future that stays asleep. */
  lemma StaleWakerStrands()
    ensures exists run :: Plain(run) && !NotStranded(Exec(INIT, run))
  {
    StaleRun2();
    Extend(Stale(2), DropGuard(1), PopWake);
    Stale3();
    var run :| Plain(run) && Exec(INIT, run) == Stale(3);
    var s := Stale(3);
    assert !s.locked && s.releases == 0 && s.futs[2].Asleep();
    assert !s.futs[0].Active() && !s.futs[1].Active() && !s.futs[2].Active();
    assert !NotStranded(s);
  }

  // ---------- the same code when no other thread interferes ----------

  /** An undisturbed poll takes the lock exactly if it is free, and otherwise queues its waker. */
  lemma SoloPoll(s: State, i: nat)
    requires i < |s.futs| && s.futs[i].pc == Parked
    ensures var f := s.futs[i].(polls := s.futs[i].polls + 1, awake := false);
            if !s.locked
            then Apply2(s, BeginPoll(i), Check(i)) == WithFut(s, i,
                f.(pc := Granted, guards := f.guards + 1)).(locked := true)
            else Apply2(Apply2(s, BeginPoll(i), Check(i)), Push(i), Recheck(i))
                 == WithFut(s, i, f.(pc := Parked)).(queue := s.queue + [Token(i, f.polls)])
  {
  }

  /** An undisturbed drop of a guard unlocks and wakes the first waker, if there is one. */
  lemma SoloDrop(s: State, i: nat)
    requires i < |s.futs| && s.futs[i].guards > 0
    ensures var t, g := Apply2(s, DropGuard(i), PopWake), s.futs[i].guards - 1;
            && !t.locked && t.releases == s.releases && |t.futs| == |s.futs| && t.futs[i].guards == g
            && t.queue == (if s.queue == [] then [] else s.queue[1..])
            && t.woken == s.woken + (if s.queue == [] then {} else {s.queue[0]})
            && (forall j :: 0 <= j < |s.futs| && j != i ==> t.futs[j].guards == s.futs[j].guards)
            && (s.queue != [] && s.queue[0].fut < |s.futs| && s.queue[0].fut != i
                && s.futs[s.queue[0].fut].pc == Parked ==>
                  t.futs[s.queue[0].fut].awake)
  {
  }

  class MutexInner {
    var locked: bool
    var wakerQueue: seq<Token>

    constructor ()
      ensures !locked && wakerQueue == []
    {
      locked, wakerQueue := false, [];
    }

    method CheckLock() returns (taken: bool)
      modifies this
      ensures taken == !old(locked) && locked && wakerQueue == old(wakerQueue)
    {
      taken := !locked;
      locked := true;
    }

    /** `MutexFuture::poll`: Ready exactly when the lock was free; otherwise the waker is queued. */
    method Poll(waker: Token) returns (ready: bool)
      modifies this
      ensures ready == !old(locked) && locked
      ensures wakerQueue == if ready then old(wakerQueue) else old(wakerQueue) + [waker]
    {
      ready := CheckLock();
      if ready {
        return;
      }
      wakerQueue := wakerQueue + [waker];
      ready := CheckLock();
    }

    /** `MutexGuard::drop`: frees the lock and hands out the longest-waiting waker. */
    method DropGuard() returns (woken: seq<Token>)
      modifies this
      ensures !locked && woken + wakerQueue == old(wakerQueue)
      ensures |woken| == if old(wakerQueue) == [] then 0 else 1
    {
      locked := false;
      if wakerQueue == [] {
        return [];
      }
      woken := [wakerQueue[0]];
      wakerQueue := wakerQueue[1..];
    }
  }
}
