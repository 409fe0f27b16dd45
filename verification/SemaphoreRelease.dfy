/** What a release does, pop by pop, and what a poll does when it is disturbed. */
module SemaphoreRelease {
  import opened Words
  import opened Wakers
  import opened Semaphore
  import opened SemaphoreLedger

  // ---------- the pops of one release ----------

  function PopAll(v: Variant, s: State, release: nat, n: nat): State
    decreases n
  {
    if n == 0 then s else PopAll(v, Apply(v, s, PopWake(release)), release, n - 1)
  }

  function Tokens(queue: seq<Token>): set<Token> {
    set t | t in queue
  }

  lemma OnePop(v: Variant, s: State, release: nat)
    requires release < |s.releases| && s.releases[release] > 0
    ensures Apply(v, s, PopWake(release))
         == if s.queue == [] then s.(releases := s.releases[release := 0])
            else s.(queue := s.queue[1..], woken := s.woken + {s.queue[0]},
                    releases := s.releases[release := s.releases[release] - 1])
  {
  }

  lemma FirstToken(queue: seq<Token>, m: nat)
    requires 0 < m <= |queue|
    ensures Tokens(queue[..m]) == {queue[0]} + Tokens(queue[1..][..m - 1]) && queue[1..][m - 1..] == queue[m..]
  {
    assert queue[..m] == [queue[0]] + queue[1..][..m - 1];
  }

  /** The state after n pops of a release that has at least as many left. */
  ghost predicate PoppedTo(s: State, t: State, release: nat, n: nat) {
    var m := Min(n, |s.queue|);
    && t.permits == s.permits && t.futs == s.futs
    && t.queue == s.queue[m..] && t.woken == s.woken + Tokens(s.queue[..m])
    && release < |s.releases| && n <= s.releases[release]
    && t.releases == s.releases[release := if n <= |s.queue| then s.releases[release] - n else 0]
  }

  lemma PopFirst(v: Variant, s: State, t: State, release: nat, n: nat)
    requires release < |s.releases| && 0 < n <= s.releases[release] && s.queue != []
    requires PoppedTo(Apply(v, s, PopWake(release)), t, release, n - 1)
    ensures PoppedTo(s, t, release, n)
  {
    OnePop(v, s, release);
    FirstToken(s.queue, Min(n, |s.queue|));
  }

  lemma PopZero(s: State, release: nat)
    requires release < |s.releases|
    ensures PoppedTo(s, s, release, 0)
  {
    assert s.queue[0..] == s.queue && Tokens(s.queue[..0]) == {};
    assert s.releases[release := s.releases[release]] == s.releases;
  }

  lemma PopEmpty(v: Variant, s: State, release: nat, n: nat)
    requires release < |s.releases| && 0 < n <= s.releases[release] && s.queue == []
    ensures PoppedTo(s, PopAll(v, s, release, n), release, n)
  {
    OnePop(v, s, release);
    NoPops(v, Apply(v, s, PopWake(release)), release, n - 1);
    assert s.queue[0..] == s.queue && Tokens(s.queue[..0]) == {};
  }

  /** Some of the pops a release has left: the longest-waiting wakers are woken, and a pop that
      finds the queue empty ends the release. */
  lemma {:induction false} PopsWake(v: Variant, s: State, release: nat, n: nat)
    requires release < |s.releases| && n <= s.releases[release]
    ensures PoppedTo(s, PopAll(v, s, release, n), release, n)
    decreases n
  {
    if n == 0 {
      PopZero(s, release);
    } else if s.queue == [] {
      PopEmpty(v, s, release, n);
    } else {
      OnePop(v, s, release);
      PopsWake(v, Apply(v, s, PopWake(release)), release, n - 1);
      PopFirst(v, s, PopAll(v, s, release, n), release, n);
    }
  }

  lemma {:induction false} NoPops(v: Variant, s: State, release: nat, n: nat)
    requires release < |s.releases| && s.releases[release] == 0
    ensures PopAll(v, s, release, n) == s
    decreases n
  {
    if n > 0 {
      NoPops(v, s, release, n - 1);
    }
  }

  /** The state after a release of n permits by future i, and all of its pops. */
  ghost predicate Released(s: State, t: State, n: word) {
    var m := Min(n, |s.queue|);
    && t.permits == (s.permits + n) % WORD
    && t.queue == s.queue[m..] && t.woken == s.woken + Tokens(s.queue[..m])
    && t.releases == s.releases + [0]
  }

  lemma PermitReleaseWakes(v: Variant, s: State, i: nat)
    requires i < |s.futs| && s.futs[i].live
    ensures var t := PopAll(v, Apply(v, s, DropPermit(i)), |s.releases|, s.futs[i].desired);
            Released(s, t, s.futs[i].desired) && t.futs == s.futs[i := s.futs[i].(live := false)]
  {
    var n := s.futs[i].desired;
    PopsWake(v, Apply(v, s, DropPermit(i)), |s.releases|, n);
    assert (s.releases + [n])[|s.releases| := 0] == s.releases + [0];
  }

  /** Dropping a future gives its hoard back like a permit; without one nothing is released. */
  lemma FutureReleaseWakes(v: Variant, s: State, i: nat)
    requires i < |s.futs| && (s.futs[i].pc == Parked || s.futs[i].pc == Granted)
    ensures s.futs[i].Hoard() > 0 ==>
              var t := PopAll(v, Apply(v, s, DropFuture(i)), |s.releases|, s.futs[i].Hoard());
              Released(s, t, s.futs[i].Hoard()) && t.futs == s.futs[i := s.futs[i].(pc := Dropped, mode := Hungry(0))]
    ensures s.futs[i].Hoard() == 0 ==>
              Apply(v, s, DropFuture(i)) == s.(futs := s.futs[i := s.futs[i].(pc := Dropped)])
  {
    var n := s.futs[i].Hoard();
    if n > 0 {
      PopsWake(v, Apply(v, s, DropFuture(i)), |s.releases|, n);
      assert (s.releases + [n])[|s.releases| := 0] == s.releases + [0];
    }
  }

  // ---------- the order of the queue ----------

  /** The waker that a step queues, and the one it takes off. */
  function Pushed(s: State, step: Step): seq<Token> {
    if step.Push? && step.fut < |s.futs| && s.futs[step.fut].pc == AtPush
    then [Token(step.fut, s.futs[step.fut].polls)] else []
  }

  function Popped(s: State, step: Step): seq<Token> {
    if step.PopWake? && step.release < |s.releases| && s.releases[step.release] > 0 && s.queue != []
    then [s.queue[0]] else []
  }

  function PushedAll(v: Variant, s: State, steps: seq<Step>): seq<Token> {
    if steps == [] then []
    else
      var prefix, last := steps[..|steps| - 1], steps[|steps| - 1];
      PushedAll(v, s, prefix) + Pushed(Exec(v, s, prefix), last)
  }

  function PoppedAll(v: Variant, s: State, steps: seq<Step>): seq<Token> {
    if steps == [] then []
    else
      var prefix, last := steps[..|steps| - 1], steps[|steps| - 1];
      PoppedAll(v, s, prefix) + Popped(Exec(v, s, prefix), last)
  }

  lemma StepOrder(v: Variant, s: State, step: Step)
    ensures Popped(s, step) + Apply(v, s, step).queue == s.queue + Pushed(s, step)
    ensures Apply(v, s, step).woken == s.woken + Tokens(Popped(s, step))
  {
    if step.PopWake? && s.queue != [] {
      assert [s.queue[0]] + s.queue[1..] == s.queue;
    }
  }

  /** Over any run wakers are woken in the order in which they were queued, and only those that
      were taken off the queue. */
  lemma {:induction false} WokenInOrder(v: Variant, initial: word, steps: seq<Step>)
    ensures var s := Exec(v, Init(initial), steps);
            && PoppedAll(v, Init(initial), steps) + s.queue == PushedAll(v, Init(initial), steps)
            && s.woken == Tokens(PoppedAll(v, Init(initial), steps))
  {
    if steps != [] {
      var prefix, last := steps[..|steps| - 1], steps[|steps| - 1];
      var s, t := Exec(v, Init(initial), prefix), Exec(v, Init(initial), steps);
      WokenInOrder(v, initial, prefix);
      StepOrder(v, s, last);
      var popped, pushed := PoppedAll(v, Init(initial), prefix), PushedAll(v, Init(initial), prefix);
      Regroup(popped, Popped(s, last), t.queue);
      Regroup(popped, s.queue, Pushed(s, last));
      TokensConcat(popped, Popped(s, last));
    }
  }

  lemma Regroup(a: seq<Token>, b: seq<Token>, c: seq<Token>)
    ensures (a + b) + c == a + (b + c)
  {
  }

  lemma TokensConcat(a: seq<Token>, b: seq<Token>)
    ensures Tokens(a + b) == Tokens(a) + Tokens(b)
  {
  }

  // ---------- a disturbed poll ----------

  /** Once its waker is queued a poll looks at the counter one last time: whatever others do
      between its steps, it is granted or waits after at most two compare-exchanges. */
  lemma QueuedPollEnds(v: Variant, s1: State, s2: State, s3: State, i: nat)
    requires i < |s1.futs| && i < |s2.futs| && i < |s3.futs|
    requires s1.futs[i].registered && s1.futs[i].pc == AtLoad
    requires s2.futs[i] == Apply(v, s1, Load(i)).futs[i]
    requires s3.futs[i] == Apply(v, s2, GrantCas(i)).futs[i]
    ensures var f := Apply(v, s3, HoardCas(i)).futs[i]; f.pc == Parked || f.pc == Granted
  {
  }

  /** Before that, a lost compare-exchange makes it look again. */
  lemma LostRaceLooksAgain(v: Variant, s: State, i: nat)
    requires i < |s.futs| && !s.futs[i].registered
    ensures s.futs[i].pc.AtGrant? && s.permits != s.futs[i].pc.seen ==>
              Apply(v, s, GrantCas(i)) == WithFut(s, i, s.futs[i].(pc := AtLoad))
    ensures s.futs[i].pc.AtHoard? && s.permits != s.futs[i].pc.seen ==>
              Apply(v, s, HoardCas(i)) == WithFut(s, i, s.futs[i].(pc := AtLoad))
  {
  }

  /** A queued hungry future that loses the race for its grant still hoards what it saw, if the
      counter has that value again: it then waits although its hoard is all it asked for. */
  lemma StaleHoard(v: Variant, s: State, t: State, i: nat)
    requires i < |s.futs| && i < |t.futs| && s.futs[i].pc.AtGrant? && FutOk(s.futs[i])
    requires s.futs[i].registered && s.futs[i].mode.Hungry? && s.futs[i].pc.seen > 0
    requires s.permits != s.futs[i].pc.seen
    requires t.futs[i] == Apply(v, s, GrantCas(i)).futs[i] && t.permits == s.futs[i].pc.seen
    requires s.futs[i].Hoard() + s.futs[i].pc.seen < WORD
    ensures var f, g := s.futs[i], Apply(v, t, HoardCas(i)).futs[i];
            && g.pc == Parked && g.Hoard() == f.Hoard() + f.pc.seen >= f.desired
            && Apply(v, t, HoardCas(i)).permits == 0
  {
  }
}
