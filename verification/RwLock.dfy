/** The read-write lock of src/sync/rw_lock.rs: readers take one permit politely, writers
    take all of them hungrily. */
module RwLock {
  import opened Words
  import opened Semaphore
  import opened SemaphoreLedger

  /** `read` and `write` are the only ways to create a future of the lock's semaphore. */
  ghost predicate RwRun(max: word, steps: seq<Step>) {
    forall k :: 0 <= k < |steps| && steps[k].Create? ==> steps[k].desired == if steps[k].hungry then max else 1
  }

  predicate Writer(f: Fut) { f.mode.Hungry? }

  ghost predicate RwState(max: word, s: State) {
    forall i :: 0 <= i < |s.futs| ==> s.futs[i].desired == if Writer(s.futs[i]) then max else 1
  }

  /** A live write permit is the only live permit. */
  ghost predicate Exclusive(s: State) {
    forall i, j :: 0 <= i < |s.futs| && 0 <= j < |s.futs| && i != j && s.futs[i].live && s.futs[j].live
      ==> !Writer(s.futs[i])
  }

  function LiveCount(futs: seq<Fut>): nat {
    if futs == [] then 0 else LiveCount(futs[..|futs| - 1]) + if futs[|futs| - 1].live then 1 else 0
  }

  lemma FutKind(v: Variant, s: State, i: nat, step: Step)
    requires Ok(s) && i < |s.futs|
    ensures var t := ApplyFut(v, s, i, step);
            && |t.futs| == |s.futs| && t.futs == s.futs[i := t.futs[i]]
            && t.futs[i].desired == s.futs[i].desired && (Writer(t.futs[i]) <==> Writer(s.futs[i]))
  {
  }

  lemma ApplyRwState(v: Variant, max: word, s: State, step: Step)
    requires Ok(s) && RwState(max, s)
    requires step.Create? ==> step.desired == if step.hungry then max else 1
    ensures RwState(max, Apply(v, s, step))
  {
    if !step.Create? && !step.PopWake? && step.fut < |s.futs| {
      FutKind(v, s, step.fut, step);
    }
  }

  lemma {:induction false} ExecRwState(v: Variant, max: word, s: State, steps: seq<Step>)
    requires Ok(s) && RwState(max, s) && RwRun(max, steps)
    ensures RwState(max, Exec(v, s, steps))
  {
    if steps != [] {
      var prefix := steps[..|steps| - 1];
      ExecRwState(v, max, s, prefix);
      ExecOk(v, s, prefix);
      ApplyRwState(v, max, Exec(v, s, prefix), steps[|steps| - 1]);
    }
  }

  lemma {:induction false} LiveBound(max: word, futs: seq<Fut>)
    requires forall i :: 0 <= i < |futs| ==> futs[i].desired >= 1
    ensures LiveCount(futs) <= Shares(futs)
  {
    if futs != [] {
      LiveBound(max, futs[..|futs| - 1]);
    }
  }

  /** What conservation means for the lock. */
  ghost predicate RwSafe(max: word, s: State) {
    && Exclusive(s)
    && LiveCount(s.futs) <= max
    && s.permits <= max
  }

  lemma ConservedIsSafe(max: word, s: State)
    requires max >= 1 && RwState(max, s) && Total(s) == max
    ensures RwSafe(max, s)
  {
    forall i, j | 0 <= i < |s.futs| && 0 <= j < |s.futs| && i != j && s.futs[i].live && s.futs[j].live
      ensures !Writer(s.futs[i])
    {
      ShareBound2(s.futs, if i < j then i else j, if i < j then j else i);
    }
    LiveBound(max, s.futs);
  }

  /** In every run in which no writer is granted with a non-zero hoard the lock is
      exclusive, live readers never exceed the maximum, and the counter stays at or below
      its initial value, so that fetch_add does not wrap even for a maximum of usize::MAX. */
  lemma Exclusion(v: Variant, max: word, steps: seq<Step>)
    requires max >= 1 && RwRun(max, steps)
    requires NoHoardedGrant(v, Init(max), steps)
    ensures RwSafe(max, Exec(v, Init(max), steps))
    ensures TotalWraps(v, Init(max), steps) == 0
  {
    Conservation(v, Init(max), steps);
    ExecRwState(v, max, Init(max), steps);
    ConservedIsSafe(max, Exec(v, Init(max), steps));
  }

  /** With grants that consume the hoard, the intended behaviour, every run is safe. */
  lemma ConsumingExclusion(max: word, steps: seq<Step>)
    requires max >= 1 && RwRun(max, steps)
    ensures RwSafe(max, Exec(ConsumesHoard, Init(max), steps))
  {
    Exclusion(ConsumesHoard, max, steps);
  }

  // ---------- exactly when a write grant is safe ----------

  /** Every continuation without another hoarded grant keeps the lock safe. */
  ghost predicate StaysSafe(max: word, s: State) {
    forall more {:trigger Exec(KeepsHoard, s, more)} ::
      RwRun(max, more) && NoHoardedGrant(KeepsHoard, s, more) ==> RwSafe(max, Exec(KeepsHoard, s, more))
  }

  /** The granted writer's future is dropped, as it is when `write` resumes, and a reader arrives. */
  function ReaderAfterWriter(i: nat, n: nat): seq<Step> {
    [DropFuture(i), Create(1, false)] + [BeginPoll(n), Load(n)] + [GrantCas(n)]
  }

  /** A writer that was granted with part of its permits hoarded: no permit is left, and
      dropping its future puts the hoard back. */
  ghost predicate JustGrantedWriter(s: State, i: nat) {
    && i < |s.futs| && s.futs[i].pc == Granted && s.futs[i].live && Writer(s.futs[i])
    && s.permits == 0 && 0 < s.futs[i].Hoard()
  }

  lemma ReaderArrives(s: State, i: nat)
    requires Ok(s) && JustGrantedWriter(s, i)
    ensures var t := Apply2(KeepsHoard, s, DropFuture(i), Create(1, false));
            && t.permits == s.futs[i].Hoard()
            && t.futs == s.futs[i := s.futs[i].(pc := Dropped, mode := Hungry(0))]
                + [Fut(1, Polite, Parked, 0, false, false, false)]
  {
  }

  lemma ReaderLooks(sa: State, n: nat)
    requires n < |sa.futs| && sa.permits > 0 && sa.futs[n] == Fut(1, Polite, Parked, 0, false, false, false)
    ensures Apply2(KeepsHoard, sa, BeginPoll(n), Load(n))
         == WithFut(sa, n, Fut(1, Polite, AtGrant(sa.permits, sa.permits - 1), 1, false, false, false))
  {
  }

  lemma ReaderLoads(s: State, i: nat)
    requires Ok(s) && JustGrantedWriter(s, i)
    ensures var n := |s.futs|;
            var t := Exec(KeepsHoard, s, ReaderAfterWriter(i, n)[..4]);
            && |t.futs| == n + 1 && t.permits == s.futs[i].Hoard()
            && t.futs[i] == s.futs[i].(pc := Dropped, mode := Hungry(0))
            && t.futs[n] == Fut(1, Polite, AtGrant(t.permits, t.permits - 1), 1, false, false, false)
  {
    var v, n := KeepsHoard, |s.futs|;
    var a := Extend(v, s, [], s, DropFuture(i), Create(1, false));
    var sa := Apply2(v, s, DropFuture(i), Create(1, false));
    ReaderArrives(s, i);
    ReaderLooks(sa, n);
    var b := Extend(v, s, a, sa, BeginPoll(n), Load(n));
    assert b == ReaderAfterWriter(i, n)[..4];
  }

  lemma ReaderGranted(s: State, i: nat, n: nat)
    requires i < n < |s.futs| && s.futs[i].live && Writer(s.futs[i]) && s.permits > 0
    requires s.futs[n] == Fut(1, Polite, AtGrant(s.permits, s.permits - 1), 1, false, false, false)
    ensures !Exclusive(Apply(KeepsHoard, s, GrantCas(n)))
    ensures Surplus(KeepsHoard, s, GrantCas(n)) == 0
  {
    var t := Apply(KeepsHoard, s, GrantCas(n));
    assert t.futs[i].live && t.futs[n].live && Writer(t.futs[i]);
  }

  lemma ReaderJoins(max: word, s: State, i: nat, run: seq<Step>)
    requires max >= 1 && Ok(s) && JustGrantedWriter(s, i)
    requires run == ReaderAfterWriter(i, |s.futs|)
    ensures !Exclusive(Exec(KeepsHoard, s, run))
    ensures NoHoardedGrant(KeepsHoard, s, run)
    ensures RwRun(max, run)
  {
    var n := |s.futs|;
    ReaderLoads(s, i);
    ReaderGranted(Exec(KeepsHoard, s, run[..4]), i, n);
    assert run[4] == GrantCas(n) && forall k :: 0 <= k < 4 ==> !run[k].GrantCas?;
  }

  /** A granted write permit leaves the lock safe in every continuation exactly when the
      writer held no hoard at the moment of the grant. */
  lemma WriteGrantExact(max: word, steps: seq<Step>, i: nat)
    requires max >= 1 && RwRun(max, steps) && NoHoardedGrant(KeepsHoard, Init(max), steps)
    requires var s := Exec(KeepsHoard, Init(max), steps); Grants(s, GrantCas(i)) && Writer(s.futs[i])
    ensures var s := Exec(KeepsHoard, Init(max), steps);
            StaysSafe(max, Apply(KeepsHoard, s, GrantCas(i))) <==> s.futs[i].Hoard() == 0
  {
    var s := Exec(KeepsHoard, Init(max), steps);
    var t := Apply(KeepsHoard, s, GrantCas(i));
    Conservation(KeepsHoard, Init(max), steps);
    ExecOk(KeepsHoard, Init(max), steps);
    ExecRwState(KeepsHoard, max, Init(max), steps);
    StepLedger(KeepsHoard, s, GrantCas(i));
    ApplyOk(KeepsHoard, s, GrantCas(i));
    ApplyRwState(KeepsHoard, max, s, GrantCas(i));
    ShareBound(s.futs, i);
    if s.futs[i].Hoard() == 0 {
      forall more | RwRun(max, more) && NoHoardedGrant(KeepsHoard, t, more)
        ensures RwSafe(max, Exec(KeepsHoard, t, more))
      {
        Conservation(KeepsHoard, t, more);
        ExecRwState(KeepsHoard, max, t, more);
        ConservedIsSafe(max, Exec(KeepsHoard, t, more));
      }
    } else {
      assert FutOk(s.futs[i]);
      assert JustGrantedWriter(t, i);
      ReaderJoins(max, t, i, ReaderAfterWriter(i, |t.futs|));
    }
  }

  /** A run of the lock in which a reader joins a writer that was granted with a hoard. */
  lemma ReaderJoinsWriter()
    ensures var run := HOARDED_GRANT + ReaderAfterWriter(1, 2);
            RwRun(2, run) && !Exclusive(Exec(KeepsHoard, Init(2), run))
  {
    var s, more := Invented(KeepsHoard, 2), ReaderAfterWriter(1, 2);
    InventedStates(KeepsHoard);
    ExecOk(KeepsHoard, Init(2), HOARDED_GRANT);
    ReaderJoins(2, s, 1, more);
    ExecConcat(KeepsHoard, Init(2), HOARDED_GRANT, more);
    HoardedGrantIsRw();
  }

  lemma HoardedGrantIsRw()
    ensures RwRun(2, HOARDED_GRANT)
  {
    forall k | 0 <= k < |HOARDED_GRANT| && HOARDED_GRANT[k].Create? ensures k == 0 || k == 4 {
    }
  }
}
