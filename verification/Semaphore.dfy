/** The async semaphore of src/sync/semaphore.rs as a transition system.

    Every load, compare-exchange, fetch_add, push and pop of the source is one step,
    and a run is any sequence of steps by any number of futures, guards and releasing
    threads.  A step that is not possible in the current state leaves it unchanged, so
    quantifying over step sequences is quantifying over all interleavings. */
module Semaphore {
  import opened Words
  import opened Wakers

  datatype Mode = Polite | Hungry(count: word)

  /** Where a future is in `sem_fut`; `seen` is the value of the last load. */
  datatype Pc =
    | Parked                               // between polls
    | AtLoad                               // about to load the counter
    | AtGrant(seen: word, left: word)      // about to exchange seen for left
    | AtHoard(seen: word)                  // about to exchange seen for 0
    | AtPush                               // about to queue the waker
    | Granted                              // Ready was returned
    | Dropped

  /** `registered` is the `queued` flag of the current or last poll, `checked` is the
      value it had at the last load, and `live` says that the permit of this future exists. */
  datatype Fut = Fut(desired: word, mode: Mode, pc: Pc, polls: nat, registered: bool, checked: bool, live: bool) {
    function Hoard(): word {
      match mode
      case Polite => 0
      case Hungry(count) => count
    }

    function Needed(): word {
      if desired <= Hoard() then 0 else desired - Hoard()
    }

    function Share(): nat {
      (if live then desired else 0) + Hoard()
    }
  }

  /** `releases[r]` is the number of pops the r-th call of `add_permits` still has to do. */
  datatype State = State(permits: word, queue: seq<Token>, futs: seq<Fut>, releases: seq<word>, woken: set<Token>)

  /** What a grant does to the hoard: the source keeps it; `ConsumesHoard` is the intended
      behaviour, in which the hoarded permits become part of the granted permit. */
  datatype Variant = KeepsHoard | ConsumesHoard

  datatype Step =
    | Create(desired: word, hungry: bool)
    | BeginPoll(fut: nat)
    | Load(fut: nat)
    | GrantCas(fut: nat)
    | HoardCas(fut: nat)
    | Push(fut: nat)
    | DropPermit(fut: nat)
    | DropFuture(fut: nat)
    | PopWake(release: nat)

  function Init(permits: word): State {
    State(permits, [], [], [], {})
  }

  // ---------- the steps ----------

  function WithFut(s: State, i: nat, f: Fut): State
    requires i < |s.futs|
  {
    s.(futs := s.futs[i := f])
  }

  /** Lines 72-78: queue the waker and go round once more, or return Pending. */
  function AfterHoard(f: Fut): Fut {
    f.(pc := if f.registered then Parked else AtPush)
  }

  /** Lines 57-58: a hungry future that saw permits goes on to hoard them. */
  function AfterCheck(f: Fut, seen: word): Fut {
    if f.mode.Hungry? && seen > 0 then f.(pc := AtHoard(seen)) else AfterHoard(f)
  }

  function AfterLoad(f: Fut, seen: word): Fut {
    var f := f.(checked := f.registered);
    if seen >= f.Needed() then f.(pc := AtGrant(seen, seen - f.Needed())) else AfterCheck(f, seen)
  }

  function Grant(v: Variant, f: Fut): Fut {
    f.(pc := Granted, live := true,
       mode := if v.ConsumesHoard? && f.mode.Hungry?
               then Hungry(f.Hoard() - (f.desired - f.Needed()))
               else f.mode)
  }

  /** `add_permits`: one fetch_add, which wraps, then a loop of n pops. */
  function AddPermits(s: State, n: word): State {
    s.(permits := (s.permits + n) % WORD, releases := s.releases + [n])
  }

  function Apply(v: Variant, s: State, step: Step): State {
    match step
    case Create(desired, hungry) =>
      s.(futs := s.futs + [Fut(desired, if hungry then Hungry(0) else Polite, Parked, 0, false, false, false)])
    case PopWake(r) =>
      if r >= |s.releases| || s.releases[r] == 0 then s
      else if s.queue == [] then s.(releases := s.releases[r := 0])
      else s.(queue := s.queue[1..], woken := s.woken + {s.queue[0]}, releases := s.releases[r := s.releases[r] - 1])
    case _ =>
      var i := step.fut;
      if i >= |s.futs| then s else ApplyFut(v, s, i, step)
  }

  function ApplyFut(v: Variant, s: State, i: nat, step: Step): State
    requires i < |s.futs|
  {
    var f := s.futs[i];
    match step
    case BeginPoll(_) =>
      if f.pc != Parked then s
      else WithFut(s, i, f.(pc := AtLoad, polls := f.polls + 1, registered := false, checked := false))
    case Load(_) =>
      if f.pc != AtLoad then s else WithFut(s, i, AfterLoad(f, s.permits))
    case GrantCas(_) =>
      if !f.pc.AtGrant? then s
      else if s.permits == f.pc.seen then
        WithFut(s, i, Grant(v, f)).(permits := f.pc.left)
      else if f.registered then WithFut(s, i, AfterCheck(f, f.pc.seen))
      else WithFut(s, i, f.(pc := AtLoad))
    case HoardCas(_) =>
      if !f.pc.AtHoard? then s
      else if s.permits == f.pc.seen then
        WithFut(s, i, AfterHoard(f.(mode := Hungry((f.Hoard() + f.pc.seen) % WORD)))).(permits := 0)
      else if f.registered then WithFut(s, i, AfterHoard(f))
      else WithFut(s, i, f.(pc := AtLoad))
    case Push(_) =>
      if f.pc != AtPush then s
      else WithFut(s, i, f.(pc := AtLoad, registered := true)).(queue := s.queue + [Token(i, f.polls)])
    case DropPermit(_) =>
      if !f.live then s
      else AddPermits(WithFut(s, i, f.(live := false)), f.desired)
    case DropFuture(_) =>
      if f.pc != Parked && f.pc != Granted then s
      else if f.Hoard() > 0 then
        AddPermits(WithFut(s, i, f.(pc := Dropped, mode := Hungry(0))), f.Hoard())
      else WithFut(s, i, f.(pc := Dropped))
    case _ => s
  }

  function Exec(v: Variant, s: State, steps: seq<Step>): State {
    if steps == [] then s
    else Apply(v, Exec(v, s, steps[..|steps| - 1]), steps[|steps| - 1])
  }

  // ---------- well-formedness of reachable states ----------

  predicate FutOk(f: Fut) {
    && (f.pc.AtGrant? ==> f.pc.seen == f.pc.left + f.Needed())
    && (f.pc.AtHoard? ==> f.mode.Hungry? && f.pc.seen > 0)
    && (f.live ==> f.pc == Granted || f.pc == Dropped)
  }

  ghost predicate Ok(s: State) {
    forall i :: 0 <= i < |s.futs| ==> FutOk(s.futs[i])
  }

  lemma ApplyOk(v: Variant, s: State, step: Step)
    requires Ok(s)
    ensures Ok(Apply(v, s, step))
  {
  }

  lemma {:induction false} ExecOk(v: Variant, s: State, steps: seq<Step>)
    requires Ok(s)
    ensures Ok(Exec(v, s, steps))
  {
    if steps != [] {
      ExecOk(v, s, steps[..|steps| - 1]);
      ApplyOk(v, Exec(v, s, steps[..|steps| - 1]), steps[|steps| - 1]);
    }
  }
}
