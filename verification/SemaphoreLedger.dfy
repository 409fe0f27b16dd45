/** Where every permit is, over every interleaving. */
module SemaphoreLedger {
  import opened Words
  import opened Wakers
  import opened Semaphore

  function Shares(futs: seq<Fut>): nat {
    if futs == [] then 0 else Shares(futs[..|futs| - 1]) + futs[|futs| - 1].Share()
  }

  /** Available permits, live permits and the hoards of futures not yet dropped. */
  function Total(s: State): nat {
    s.permits + Shares(s.futs)
  }

  predicate Grants(s: State, step: Step) {
    && step.GrantCas? && step.fut < |s.futs|
    && s.futs[step.fut].pc.AtGrant? && s.futs[step.fut].pc.seen == s.permits
  }

  /** What a grant counts twice: the part of the hoard that also is in the new permit. */
  function Surplus(v: Variant, s: State, step: Step): nat {
    if v.KeepsHoard? && Grants(s, step)
    then Min(s.futs[step.fut].Hoard(), s.futs[step.fut].desired)
    else 0
  }

  /** How often one of the machine words involved in a step overflows. */
  function Wraps(s: State, step: Step): nat {
    match step
    case HoardCas(i) =>
      if i < |s.futs| && s.futs[i].pc.AtHoard? && s.futs[i].pc.seen == s.permits
      then (s.futs[i].Hoard() + s.permits) / WORD else 0
    case DropPermit(i) =>
      if i < |s.futs| && s.futs[i].live then (s.permits + s.futs[i].desired) / WORD else 0
    case DropFuture(i) =>
      if i < |s.futs| && (s.futs[i].pc == Parked || s.futs[i].pc == Granted)
      then (s.permits + s.futs[i].Hoard()) / WORD else 0
    case _ => 0
  }

  function TotalSurplus(v: Variant, s: State, steps: seq<Step>): nat {
    if steps == [] then 0
    else
      var prefix := steps[..|steps| - 1];
      TotalSurplus(v, s, prefix) + Surplus(v, Exec(v, s, prefix), steps[|steps| - 1])
  }

  function TotalWraps(v: Variant, s: State, steps: seq<Step>): nat {
    if steps == [] then 0
    else
      var prefix := steps[..|steps| - 1];
      TotalWraps(v, s, prefix) + Wraps(Exec(v, s, prefix), steps[|steps| - 1])
  }

  // ---------- one step ----------

  lemma {:induction false} SharesUpdate(futs: seq<Fut>, i: nat, f: Fut)
    requires i < |futs|
    ensures Shares(futs[i := f]) == Shares(futs) - futs[i].Share() + f.Share()
  {
    var n := |futs| - 1;
    if i == n {
      assert futs[i := f][..n] == futs[..n];
    } else {
      assert futs[i := f][..n] == futs[..n][i := f];
      SharesUpdate(futs[..n], i, f);
    }
  }

  lemma {:induction false} ShareBound(futs: seq<Fut>, i: nat)
    requires i < |futs|
    ensures futs[i].Share() <= Shares(futs)
  {
    if i < |futs| - 1 {
      ShareBound(futs[..|futs| - 1], i);
    }
  }

  lemma {:induction false} ShareBound2(futs: seq<Fut>, i: nat, j: nat)
    requires i < j < |futs|
    ensures futs[i].Share() + futs[j].Share() <= Shares(futs)
  {
    if j < |futs| - 1 {
      ShareBound2(futs[..|futs| - 1], i, j);
    } else {
      ShareBound(futs[..|futs| - 1], i);
    }
  }

  lemma GrantShare(v: Variant, f: Fut)
    requires FutOk(f) && f.pc.AtGrant?
    ensures Grant(v, f).Share() == f.Share() + f.Needed() + (if v.KeepsHoard? then Min(f.Hoard(), f.desired) else 0)
  {
  }

  lemma WithFutTotal(s: State, i: nat, g: Fut)
    requires i < |s.futs|
    ensures Total(WithFut(s, i, g)) == Total(s) - s.futs[i].Share() + g.Share()
  {
    SharesUpdate(s.futs, i, g);
  }

  lemma AddPermitsTotal(s: State, n: word)
    ensures Total(AddPermits(s, n)) + WORD * ((s.permits + n) / WORD) == Total(s) + n
  {
  }

  /** The steps that move no permit. */
  lemma MoveLedger(v: Variant, s: State, i: nat, step: Step)
    requires Ok(s) && i < |s.futs|
    requires step == BeginPoll(i) || step == Load(i) || step == Push(i)
    ensures Total(ApplyFut(v, s, i, step)) == Total(s)
  {
    var f := s.futs[i];
    WithFutTotal(s, i, f.(pc := AtLoad, polls := f.polls + 1, registered := false, checked := false));
    WithFutTotal(s, i, AfterLoad(f, s.permits));
    WithFutTotal(s, i, f.(pc := AtLoad, registered := true));
  }

  lemma GrantLedger(v: Variant, s: State, i: nat)
    requires Ok(s) && i < |s.futs|
    ensures Total(ApplyFut(v, s, i, GrantCas(i))) == Total(s) + Surplus(v, s, GrantCas(i))
  {
    var f := s.futs[i];
    assert FutOk(f);
    if Grants(s, GrantCas(i)) {
      GrantShare(v, f);
      WithFutTotal(s, i, Grant(v, f));
    } else if f.pc.AtGrant? {
      WithFutTotal(s, i, AfterCheck(f, f.pc.seen));
      WithFutTotal(s, i, f.(pc := AtLoad));
    }
  }

  lemma HoardLedger(v: Variant, s: State, i: nat)
    requires Ok(s) && i < |s.futs|
    ensures Total(ApplyFut(v, s, i, HoardCas(i))) + WORD * Wraps(s, HoardCas(i)) == Total(s)
  {
    var f := s.futs[i];
    assert FutOk(f);
    if f.pc.AtHoard? && s.permits == f.pc.seen {
      var g := AfterHoard(f.(mode := Hungry((f.Hoard() + f.pc.seen) % WORD)));
      WithFutTotal(s, i, g);
      assert g.Share() + WORD * Wraps(s, HoardCas(i)) == f.Share() + s.permits;
    } else if f.pc.AtHoard? {
      WithFutTotal(s, i, AfterHoard(f));
      WithFutTotal(s, i, f.(pc := AtLoad));
    }
  }

  lemma DropPermitLedger(v: Variant, s: State, i: nat)
    requires Ok(s) && i < |s.futs|
    ensures Total(ApplyFut(v, s, i, DropPermit(i))) + WORD * Wraps(s, DropPermit(i)) == Total(s)
  {
    var f := s.futs[i];
    var g := f.(live := false);
    WithFutTotal(s, i, g);
    AddPermitsTotal(WithFut(s, i, g), f.desired);
  }

  lemma DropFutureLedger(v: Variant, s: State, i: nat)
    requires Ok(s) && i < |s.futs|
    ensures Total(ApplyFut(v, s, i, DropFuture(i))) + WORD * Wraps(s, DropFuture(i)) == Total(s)
  {
    var f := s.futs[i];
    if f.Hoard() > 0 {
      var g := f.(pc := Dropped, mode := Hungry(0));
      WithFutTotal(s, i, g);
      AddPermitsTotal(WithFut(s, i, g), f.Hoard());
    } else {
      WithFutTotal(s, i, f.(pc := Dropped));
    }
  }

  lemma StepLedger(v: Variant, s: State, step: Step)
    requires Ok(s)
    ensures Total(Apply(v, s, step)) + WORD * Wraps(s, step) == Total(s) + Surplus(v, s, step)
  {
    if step.Create? {
      assert Apply(v, s, step).futs[..|s.futs|] == s.futs;
    } else if !step.PopWake? && step.fut < |s.futs| {
      var i := step.fut;
      if step.GrantCas? {
        GrantLedger(v, s, i);
      } else if step.HoardCas? {
        HoardLedger(v, s, i);
      } else if step.DropPermit? {
        DropPermitLedger(v, s, i);
      } else if step.DropFuture? {
        DropFutureLedger(v, s, i);
      } else {
        MoveLedger(v, s, i, step);
      }
    }
  }

  // ---------- runs ----------

  /** The exact ledger of any run. */
  lemma {:induction false} Ledger(v: Variant, s: State, steps: seq<Step>)
    requires Ok(s)
    ensures Total(Exec(v, s, steps)) + WORD * TotalWraps(v, s, steps) == Total(s) + TotalSurplus(v, s, steps)
  {
    if steps != [] {
      var prefix := steps[..|steps| - 1];
      Ledger(v, s, prefix);
      ExecOk(v, s, prefix);
      StepLedger(v, Exec(v, s, prefix), steps[|steps| - 1]);
    }
  }

  /** No grant of the run happens while the granted future holds a hoard that counts. */
  ghost predicate NoHoardedGrant(v: Variant, s: State, steps: seq<Step>) {
    forall k :: 0 <= k < |steps| ==> Surplus(v, Exec(v, s, steps[..k]), steps[k]) == 0
  }

  lemma {:induction false} NoSurplus(v: Variant, s: State, steps: seq<Step>)
    requires NoHoardedGrant(v, s, steps)
    ensures TotalSurplus(v, s, steps) == 0
  {
    if steps != [] {
      var prefix := steps[..|steps| - 1];
      assert forall k :: 0 <= k < |prefix| ==> prefix[..k] == steps[..k];
      NoSurplus(v, s, prefix);
    }
  }

  /** Conservation: no permit is lost or invented, and no machine word overflows. */
  lemma Conservation(v: Variant, s: State, steps: seq<Step>)
    requires Ok(s) && Total(s) < WORD
    requires NoHoardedGrant(v, s, steps)
    ensures Total(Exec(v, s, steps)) == Total(s)
    ensures TotalWraps(v, s, steps) == 0
  {
    Ledger(v, s, steps);
    NoSurplus(v, s, steps);
    var wraps := TotalWraps(v, s, steps);
    assert wraps > 0 ==> WORD * wraps >= WORD;
  }

  ghost predicate ConservedThroughout(v: Variant, s: State, steps: seq<Step>) {
    forall k :: 0 <= k <= |steps| ==> Total(Exec(v, s, steps[..k])) == Total(s)
  }

  lemma ConservedIfNoHoardedGrant(v: Variant, s: State, steps: seq<Step>)
    requires Ok(s) && Total(s) < WORD && NoHoardedGrant(v, s, steps)
    ensures ConservedThroughout(v, s, steps)
  {
    forall k | 0 <= k <= |steps|
      ensures Total(Exec(v, s, steps[..k])) == Total(s)
    {
      assert forall j :: 0 <= j < k ==> steps[..k][..j] == steps[..j];
      Conservation(v, s, steps[..k]);
    }
  }

  lemma HoardedGrantShows(v: Variant, s: State, steps: seq<Step>, k: nat)
    requires Ok(s) && k < |steps| && ConservedThroughout(v, s, steps)
    ensures Surplus(v, Exec(v, s, steps[..k]), steps[k]) == 0
  {
    assert steps[..k + 1][..k] == steps[..k];
    assert Exec(v, s, steps[..k + 1]) == Apply(v, Exec(v, s, steps[..k]), steps[k]);
    ExecOk(v, s, steps[..k]);
    StepLedger(v, Exec(v, s, steps[..k]), steps[k]);
  }

  /** Conservation at every point of a run holds exactly when no grant keeps a hoard. */
  lemma ConservationExact(v: Variant, s: State, steps: seq<Step>)
    requires Ok(s) && Total(s) < WORD
    ensures ConservedThroughout(v, s, steps) <==> NoHoardedGrant(v, s, steps)
  {
    if NoHoardedGrant(v, s, steps) {
      ConservedIfNoHoardedGrant(v, s, steps);
    }
    if ConservedThroughout(v, s, steps) {
      forall k | 0 <= k < |steps|
        ensures Surplus(v, Exec(v, s, steps[..k]), steps[k]) == 0
      {
        HoardedGrantShows(v, s, steps, k);
      }
    }
  }

  ghost predicate AllPolite(s: State) {
    forall i :: 0 <= i < |s.futs| ==> s.futs[i].mode.Polite?
  }

  lemma StepPolite(v: Variant, s: State, step: Step)
    requires Ok(s) && AllPolite(s) && !(step.Create? && step.hungry)
    ensures AllPolite(Apply(v, s, step)) && Surplus(v, s, step) == 0
  {
  }

  lemma {:induction false} ExecPolite(v: Variant, s: State, steps: seq<Step>)
    requires Ok(s) && AllPolite(s)
    requires forall k :: 0 <= k < |steps| && steps[k].Create? ==> !steps[k].hungry
    ensures AllPolite(Exec(v, s, steps))
  {
    if steps != [] {
      var prefix := steps[..|steps| - 1];
      ExecPolite(v, s, prefix);
      ExecOk(v, s, prefix);
      StepPolite(v, Exec(v, s, prefix), steps[|steps| - 1]);
    }
  }

  /** Runs in which every future is polite conserve permits at every point. */
  lemma PoliteConserves(v: Variant, initial: word, steps: seq<Step>)
    requires forall k :: 0 <= k < |steps| && steps[k].Create? ==> !steps[k].hungry
    ensures ConservedThroughout(v, Init(initial), steps)
  {
    forall k | 0 <= k < |steps|
      ensures Surplus(v, Exec(v, Init(initial), steps[..k]), steps[k]) == 0
    {
      ExecPolite(v, Init(initial), steps[..k]);
      ExecOk(v, Init(initial), steps[..k]);
      StepPolite(v, Exec(v, Init(initial), steps[..k]), steps[k]);
    }
    ConservationExact(v, Init(initial), steps);
  }

  /** With grants that consume the hoard, which is the intended behaviour and not the
      source's, every run conserves permits. */
  lemma ConsumingConserves(initial: word, steps: seq<Step>)
    ensures ConservedThroughout(ConsumesHoard, Init(initial), steps)
  {
    ConservationExact(ConsumesHoard, Init(initial), steps);
  }

  // ---------- a run that invents a permit ----------

  lemma ExecSnoc(v: Variant, s: State, steps: seq<Step>, step: Step)
    ensures Exec(v, s, steps + [step]) == Apply(v, Exec(v, s, steps), step)
  {
    assert (steps + [step])[..|steps|] == steps;
  }

  lemma LastOfConcat(a: seq<Step>, b: seq<Step>)
    requires b != []
    ensures var run := a + b;
            run[..|run| - 1] == a + b[..|b| - 1] && run[|run| - 1] == b[|b| - 1]
  {
  }

  lemma {:induction false} ExecConcat(v: Variant, s: State, a: seq<Step>, b: seq<Step>)
    ensures Exec(v, s, a + b) == Exec(v, Exec(v, s, a), b)
    decreases |b|
  {
    if b == [] {
      assert a + b == a;
    } else {
      ExecConcat(v, s, a, b[..|b| - 1]);
      LastOfConcat(a, b);
    }
  }

  /** The state after each block of the run below, for either variant. */
  function Invented(v: Variant, block: nat): State
    requires block < 3
  {
    var f := Fut(1, Polite, Granted, 1, false, false, true);
    var g := Fut(2, Hungry(1), Parked, 1, true, true, false);
    if block == 0 then State(1, [], [f], [], {})
    else if block == 1 then State(0, [Token(1, 1)], [f, g], [], {})
    else
      var granted := Fut(2, if v.KeepsHoard? then Hungry(1) else Hungry(0), Granted, 2, false, false, true);
      State(0, [Token(1, 1)], [f.(live := false), granted], [1], {})
  }

  function Apply2(v: Variant, s: State, a: Step, b: Step): State {
    Apply(v, Apply(v, s, a), b)
  }

  lemma Extend(v: Variant, start: State, before: seq<Step>, s: State, a: Step, b: Step) returns (run: seq<Step>)
    requires Exec(v, start, before) == s
    ensures run == before + [a, b] && Exec(v, start, run) == Apply2(v, s, a, b)
  {
    run := before + [a] + [b];
    ExecSnoc(v, start, before + [a], b);
    ExecSnoc(v, start, before, a);
  }

  lemma Block0(v: Variant)
    ensures Apply2(v, Apply2(v, Init(2), Create(1, false), BeginPoll(0)), Load(0), GrantCas(0)) == Invented(v, 0)
  {
    assert Apply2(v, Init(2), Create(1, false), BeginPoll(0)).futs == [Fut(1, Polite, AtLoad, 1, false, false, false)];
  }

  lemma Block1(v: Variant)
    ensures Apply2(v, Apply2(v, Apply2(v, Invented(v, 0), Create(2, true), BeginPoll(1)), Load(1), HoardCas(1)),
        Push(1), Load(1))
         == Invented(v, 1)
  {
    var f := Invented(v, 0).futs[0];
    var s := Apply2(v, Invented(v, 0), Create(2, true), BeginPoll(1));
    assert s.futs == [f, Fut(2, Hungry(0), AtLoad, 1, false, false, false)];
    var g := Fut(2, Hungry(1), AtPush, 1, false, false, false);
    assert Apply2(v, s, Load(1), HoardCas(1)) == State(0, [], [f, g], [], {});
  }

  lemma Block2(v: Variant)
    ensures Apply2(v, Apply2(v, Invented(v, 1), DropPermit(0), BeginPoll(1)), Load(1), GrantCas(1)) == Invented(v, 2)
  {
    var s := Apply2(v, Invented(v, 1), DropPermit(0), BeginPoll(1));
    var f, g := Fut(1, Polite, Granted, 1, false, false, false), Fut(2, Hungry(1), AtLoad, 2, false, false, false);
    assert s == State(1, [Token(1, 1)], [f, g], [1], {});
  }

  lemma Block3(v: Variant)
    ensures Apply2(v, Invented(v, 2), DropPermit(1), DropFuture(1)).permits == if v.KeepsHoard? then 3 else 2
    ensures forall f :: f in Apply2(v, Invented(v, 2), DropPermit(1), DropFuture(1)).futs ==> !f.live && f.Hoard() == 0
  {
  }

  /** A future takes one of two permits. */
  const TAKES_ONE: seq<Step> := [Create(1, false), BeginPoll(0)] + [Load(0), GrantCas(0)]

  /** Another hoards the one left, and waits. */
  const HOARDS_ONE: seq<Step> := [Create(2, true), BeginPoll(1)] + [Load(1), HoardCas(1)] + [Push(1), Load(1)]

  /** The first is given back, and the other is granted both. */
  const GRANTS_BOTH: seq<Step> := [DropPermit(0), BeginPoll(1)] + [Load(1), GrantCas(1)]

  const HOARDED_GRANT: seq<Step> := TAKES_ONE + HOARDS_ONE + GRANTS_BOTH

  lemma RunBlock0(v: Variant)
    ensures Exec(v, Init(2), TAKES_ONE) == Invented(v, 0)
  {
    var s := Apply2(v, Init(2), Create(1, false), BeginPoll(0));
    Block0(v);
    var run := Extend(v, Init(2), [], Init(2), Create(1, false), BeginPoll(0));
    run := Extend(v, Init(2), run, s, Load(0), GrantCas(0));
    assert run == TAKES_ONE;
  }

  lemma RunBlock1(v: Variant)
    ensures Exec(v, Invented(v, 0), HOARDS_ONE) == Invented(v, 1)
  {
    var a := Invented(v, 0);
    var s := Apply2(v, a, Create(2, true), BeginPoll(1));
    Block1(v);
    var run := Extend(v, a, [], a, Create(2, true), BeginPoll(1));
    run := Extend(v, a, run, s, Load(1), HoardCas(1));
    run := Extend(v, a, run, Apply2(v, s, Load(1), HoardCas(1)), Push(1), Load(1));
    assert run == HOARDS_ONE;
  }

  lemma RunBlock2(v: Variant)
    ensures Exec(v, Invented(v, 1), GRANTS_BOTH) == Invented(v, 2)
  {
    var b := Invented(v, 1);
    var s := Apply2(v, b, DropPermit(0), BeginPoll(1));
    Block2(v);
    var run := Extend(v, b, [], b, DropPermit(0), BeginPoll(1));
    run := Extend(v, b, run, s, Load(1), GrantCas(1));
    assert run == GRANTS_BOTH;
  }

  lemma InventedStates(v: Variant)
    ensures Exec(v, Init(2), HOARDED_GRANT) == Invented(v, 2)
  {
    RunBlock0(v);
    RunBlock1(v);
    RunBlock2(v);
    ExecConcat(v, Init(2), TAKES_ONE, HOARDS_ONE);
    ExecConcat(v, Init(2), TAKES_ONE + HOARDS_ONE, GRANTS_BOTH);
  }

  /** Two permits, one held while a hungry future waits for both, hoards the other and is
      then granted: when every guard and future is dropped the semaphore of the source
      holds three permits, and that of the intended variant two. */
  lemma InventedPermit(v: Variant)
    ensures var s := Exec(v, Init(2), HOARDED_GRANT + [DropPermit(1), DropFuture(1)]);
            && s.permits == (if v.KeepsHoard? then 3 else 2)
            && forall f :: f in s.futs ==> !f.live && f.Hoard() == 0
  {
    InventedStates(v);
    var run := Extend(v, Init(2), HOARDED_GRANT, Invented(v, 2), DropPermit(1), DropFuture(1));
    Block3(v);
  }
}
