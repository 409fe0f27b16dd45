/** Check, register, recheck: no release is missed by a future that waits. */
module SemaphoreWakers {
  import opened Words
  import opened Wakers
  import opened Semaphore
  import opened SemaphoreLedger

  /** The waker is still queued, or was already woken. */
  ghost predicate Known(s: State, t: Token) {
    t in s.queue || t in s.woken
  }

  predicate PollOk(f: Fut) {
    && (f.pc == Parked && f.polls > 0 ==> f.registered && f.checked)
    && (f.pc.AtGrant? || f.pc.AtHoard? ==> f.checked == f.registered)
    && (f.pc == AtPush ==> !f.registered)
    && (f.pc != Parked && f.pc != Dropped ==> f.polls > 0)
  }

  ghost predicate WakersOk(s: State) {
    forall i :: 0 <= i < |s.futs| ==>
      PollOk(s.futs[i]) && (s.futs[i].registered ==> Known(s, Token(i, s.futs[i].polls)))
  }

  lemma KnownStays(v: Variant, s: State, step: Step, t: Token)
    requires Known(s, t)
    ensures Known(Apply(v, s, step), t)
  {
  }

  lemma FutPollOk(v: Variant, s: State, i: nat, step: Step)
    requires i < |s.futs| && PollOk(s.futs[i])
    ensures var t := ApplyFut(v, s, i, step);
            && |t.futs| == |s.futs| && t.futs == s.futs[i := t.futs[i]] && PollOk(t.futs[i])
            && (t.futs[i].registered ==>
                  || Token(i, t.futs[i].polls) in t.queue
                  || (s.futs[i].registered && s.futs[i].polls == t.futs[i].polls))
  {
  }

  lemma ApplyWakersOk(v: Variant, s: State, step: Step)
    requires WakersOk(s)
    ensures WakersOk(Apply(v, s, step))
  {
    var t := Apply(v, s, step);
    forall w | Known(s, w) ensures Known(t, w) {
      KnownStays(v, s, step, w);
    }
    if !step.Create? && !step.PopWake? && step.fut < |s.futs| {
      FutPollOk(v, s, step.fut, step);
    }
  }

  lemma {:induction false} ExecWakersOk(v: Variant, s: State, steps: seq<Step>)
    requires WakersOk(s)
    ensures WakersOk(Exec(v, s, steps))
  {
    if steps != [] {
      ExecWakersOk(v, s, steps[..|steps| - 1]);
      ApplyWakersOk(v, Exec(v, s, steps[..|steps| - 1]), steps[|steps| - 1]);
    }
  }

  lemma {:induction false} ExecKnown(v: Variant, s: State, steps: seq<Step>, t: Token)
    requires Known(s, t)
    ensures Known(Exec(v, s, steps), t)
  {
    if steps != [] {
      ExecKnown(v, s, steps[..|steps| - 1], t);
      KnownStays(v, Exec(v, s, steps[..|steps| - 1]), steps[|steps| - 1], t);
    }
  }

  /** A future whose last poll returned Pending has the waker of that poll queued or woken. */
  lemma PendingIsKnown(v: Variant, initial: word, steps: seq<Step>, i: nat)
    requires i < |Exec(v, Init(initial), steps).futs|
    requires var f := Exec(v, Init(initial), steps).futs[i]; f.pc == Parked && f.polls > 0
    ensures var s := Exec(v, Init(initial), steps); Known(s, Token(i, s.futs[i].polls))
  {
    ExecWakersOk(v, Init(initial), steps);
  }

  /** When `add_permits` finds the queue empty, every waiting future has been woken. */
  lemma EmptyQueueAllWoken(v: Variant, initial: word, steps: seq<Step>)
    requires Exec(v, Init(initial), steps).queue == []
    ensures var s := Exec(v, Init(initial), steps);
            forall i :: 0 <= i < |s.futs| && s.futs[i].pc == Parked && s.futs[i].polls > 0
              ==> Token(i, s.futs[i].polls) in s.woken
  {
    ExecWakersOk(v, Init(initial), steps);
  }

  lemma {:induction false} CheckedKept(v: Variant, s: State, steps: seq<Step>, i: nat)
    requires i < |s.futs|
    requires forall k :: 0 <= k < |steps| ==> steps[k] != Load(i)
    ensures var t := Exec(v, s, steps);
            && i < |t.futs| && s.futs[i].polls <= t.futs[i].polls
            && (s.futs[i].polls == t.futs[i].polls ==> s.futs[i].checked == t.futs[i].checked)
  {
    if steps != [] {
      CheckedKept(v, s, steps[..|steps| - 1], i);
      CheckedStep(v, Exec(v, s, steps[..|steps| - 1]), steps[|steps| - 1], i);
    }
  }

  lemma CheckedStep(v: Variant, s: State, step: Step, i: nat)
    requires i < |s.futs| && step != Load(i)
    ensures var t := Apply(v, s, step);
            && i < |t.futs| && s.futs[i].polls <= t.futs[i].polls
            && (s.futs[i].polls == t.futs[i].polls ==> s.futs[i].checked == t.futs[i].checked)
  {
  }

  /** The last look at the counter before Pending is taken with the waker registered, so
      every release from then on happens while that waker is queued or already woken.
      `before` ends with the last load of the poll and `after` holds no further one. */
  lemma NoMissedRelease(v: Variant, initial: word, before: seq<Step>, after: seq<Step>, i: nat)
    requires i < |Exec(v, Init(initial), before).futs| && Exec(v, Init(initial), before).futs[i].pc == AtLoad
    requires forall k :: 0 <= k < |after| ==> after[k] != Load(i)
    requires var s := Apply(v, Exec(v, Init(initial), before), Load(i));
             var f := Exec(v, s, after).futs;
             i < |f| && f[i].pc == Parked && f[i].polls == s.futs[i].polls
    ensures var s := Apply(v, Exec(v, Init(initial), before), Load(i));
            forall k :: 0 <= k <= |after| ==> Known(Exec(v, s, after[..k]), Token(i, s.futs[i].polls))
  {
    var s0 := Exec(v, Init(initial), before);
    var s := Apply(v, s0, Load(i));
    ExecWakersOk(v, Init(initial), before);
    ApplyWakersOk(v, s0, Load(i));
    ExecWakersOk(v, s, after);
    CheckedKept(v, s, after, i);
    forall k | 0 <= k <= |after|
      ensures Known(Exec(v, s, after[..k]), Token(i, s.futs[i].polls))
    {
      ExecKnown(v, s, after[..k], Token(i, s.futs[i].polls));
    }
  }

  // ---------- the same code when no other thread interferes ----------

  /** What one undisturbed poll does: whether it is Ready, the counter and the mode it leaves. */
  function SoloPoll(permits: word, desired: word, mode: Mode): (r: (bool, word, Mode))
    ensures r.0 <==> permits + Fut(desired, mode, Parked, 0, false, false, false).Hoard() >= desired
  {
    var f := Fut(desired, mode, Parked, 0, false, false, false);
    if permits >= f.Needed() then (true, permits - f.Needed(), mode)
    else if mode.Hungry? then (false, 0, Hungry(mode.count + permits))
    else (false, permits, mode)
  }

  /** `SemaphoreInner` as an object, used by one thread at a time. */
  class SemaphoreInner {
    var permits: word
    var wakerQueue: seq<Token>

    constructor (permits: word)
      ensures this.permits == permits && wakerQueue == []
    {
      this.permits, wakerQueue := permits, [];
    }

    /** Adds n permits and wakes the n longest-waiting wakers, or all if there are fewer. */
    method AddPermits(n: word) returns (woken: seq<Token>)
      modifies this
      ensures permits == (old(permits) + n) % WORD
      ensures woken == old(wakerQueue)[..Min(n, |old(wakerQueue)|)]
      ensures wakerQueue == old(wakerQueue)[Min(n, |old(wakerQueue)|)..]
    {
      permits := (permits + n) % WORD;
      woken := [];
      for k := 0 to n
        invariant k <= |old(wakerQueue)| && permits == (old(permits) + n) % WORD
        invariant woken == old(wakerQueue)[..k] && wakerQueue == old(wakerQueue)[k..]
      {
        if wakerQueue == [] {
          break;
        }
        woken := woken + [wakerQueue[0]];
        wakerQueue := wakerQueue[1..];
      }
    }

    /** `sem_fut`: the retry loop, with its compare-exchanges written as tests. */
    method SemFut(desired: word, mode: Mode, waker: Token) returns (ready: bool, mode': Mode)
      modifies this
      ensures (ready, permits, mode') == SoloPoll(old(permits), desired, mode)
      ensures wakerQueue == if ready then old(wakerQueue) else old(wakerQueue) + [waker]
      ensures permits + (if mode'.Hungry? then mode'.count else 0) + (if ready then desired else 0)
           == old(permits) + (if mode.Hungry? then mode.count else 0)
              + (if ready && mode.Hungry? then Min(mode.count, desired) else 0)
    {
      var queued := false;
      mode' := mode;
      while true
        invariant !queued ==> permits == old(permits) && mode' == mode && wakerQueue == old(wakerQueue)
        invariant queued ==> (false, permits, mode') == SoloPoll(old(permits), desired, mode)
        invariant queued ==> wakerQueue == old(wakerQueue) + [waker]
        decreases !queued
      {
        var hoard := if mode'.Hungry? then mode'.count else 0;
        var needed := if desired <= hoard then 0 else desired - hoard;
        var seen := permits;
        if seen >= needed {
          permits := seen - needed;
          return true, mode';
        }
        if mode'.Hungry? && seen > 0 {
          permits := 0;
          mode' := Hungry(hoard + seen);
        }
        if !queued {
          wakerQueue := wakerQueue + [waker];
          queued := true;
          continue;
        }
        return false, mode';
      }
    }
  }

  /** The steps of an undisturbed poll of future i. */
  function SoloSteps(s: State, i: nat): seq<Step>
    requires i < |s.futs|
  {
    var f := s.futs[i];
    if s.permits >= f.Needed() then [BeginPoll(i), Load(i), GrantCas(i)]
    else if f.mode.Hungry? && s.permits > 0 then [BeginPoll(i), Load(i), HoardCas(i), Push(i), Load(i)]
    else [BeginPoll(i), Load(i), Push(i), Load(i)]
  }

  lemma SoloGrant(s: State, i: nat)
    requires i < |s.futs| && s.futs[i].pc == Parked && s.permits >= s.futs[i].Needed()
    ensures var t := Exec(KeepsHoard, s, SoloSteps(s, i));
            && |t.futs| == |s.futs| && t.futs == s.futs[i := t.futs[i]]
            && t == s.(futs := t.futs, permits := t.permits)
            && t.futs[i].pc == Granted && t.futs[i].live && t.futs[i].desired == s.futs[i].desired
            && (true, t.permits, t.futs[i].mode) == SoloPoll(s.permits, s.futs[i].desired, s.futs[i].mode)
  {
    var run := Extend(KeepsHoard, s, [], s, BeginPoll(i), Load(i));
    ExecSnoc(KeepsHoard, s, run, GrantCas(i));
    assert run + [GrantCas(i)] == SoloSteps(s, i);
  }

  /** After the first look, and the hoarding if there is any, the waker is still to be queued. */
  lemma SoloFirstLook(s: State, i: nat) returns (run: seq<Step>)
    requires i < |s.futs| && s.futs[i].pc == Parked && s.permits < s.futs[i].Needed()
    ensures run + [Push(i), Load(i)] == SoloSteps(s, i)
    ensures var t := Exec(KeepsHoard, s, run);
            var (ready, permits, mode) := SoloPoll(s.permits, s.futs[i].desired, s.futs[i].mode);
            && t == s.(futs := t.futs, permits := permits)
            && t.futs == s.futs[i := s.futs[i].(pc := AtPush, polls := s.futs[i].polls + 1, registered := false,
                checked := false, mode := mode)]
  {
    run := Extend(KeepsHoard, s, [], s, BeginPoll(i), Load(i));
    if s.futs[i].mode.Hungry? && s.permits > 0 {
      ExecSnoc(KeepsHoard, s, run, HoardCas(i));
      run := run + [HoardCas(i)];
    }
  }

  lemma SecondLook(t: State, i: nat)
    requires i < |t.futs| && t.futs[i].pc == AtPush && t.permits < t.futs[i].Needed()
    requires t.futs[i].mode.Hungry? ==> t.permits == 0
    ensures Apply2(KeepsHoard, t, Push(i), Load(i))
         == WithFut(t, i, t.futs[i].(pc := Parked, registered := true, checked := true)).(
              queue := t.queue + [Token(i, t.futs[i].polls)])
  {
  }

  /** An undisturbed poll in the transition system does what the loop of `SemFut` does. */
  lemma SoloWait(s: State, i: nat)
    requires i < |s.futs| && s.futs[i].pc == Parked && s.permits < s.futs[i].Needed()
    ensures var t := Exec(KeepsHoard, s, SoloSteps(s, i));
            && t == s.(futs := t.futs, permits := t.permits, queue := s.queue + [Token(i, s.futs[i].polls + 1)])
            && |t.futs| == |s.futs| && t.futs == s.futs[i := t.futs[i]]
            && t.futs[i].pc == Parked && t.futs[i].desired == s.futs[i].desired
            && (t.futs[i].live <==> s.futs[i].live)
            && (false, t.permits, t.futs[i].mode) == SoloPoll(s.permits, s.futs[i].desired, s.futs[i].mode)
  {
    var run := SoloFirstLook(s, i);
    var t := Exec(KeepsHoard, s, run);
    SecondLook(t, i);
    run := Extend(KeepsHoard, s, run, t, Push(i), Load(i));
  }
}
