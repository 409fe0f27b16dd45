/** `poll` and `complete` let go of the map before they remove a slot (src/io/completion_queue.rs),
    so that others may find the slot without a state.  Here the removal is a step of its own,
    and the outcome is that of the steps in one piece. */
module CompletionSplit {
  import opened Wrappers
  import opened Completion

  /** The first half of a step, up to the removal, and the removal. */
  datatype Half = First(event: Event) | Removal(key: Key)

  /** `pending` are the keys whose removal may still come, any number of times. */
  datatype State = State(slots: Slots, pending: set<Key>)

  /** The waker in a slot after the first half. */
  function WakerAfter(slot: Slot, e: Event): Option<Waker> {
    if e.Poll? && slot.state.Some? && IntoResult(slot.state.value).0.None? then Some(e.poller) else slot.waker
  }

  /** A slot that a step removes keeps its place without a state. */
  function FirstHalf(q: Slots, e: Event): Slots {
    if e.key in q && e.key !in Step(q, e) then q[e.key := Slot(None, WakerAfter(q[e.key], e))] else Step(q, e)
  }

  function Apply(s: State, h: Half): State {
    match h
    case First(e) =>
      var goes := e.key in s.slots && e.key !in Step(s.slots, e);
      State(FirstHalf(s.slots, e), if goes then s.pending + {e.key} else s.pending)
    case Removal(k) => if k in s.pending then s.(slots := s.slots - {k}) else s
  }

  function Exec(run: seq<Half>): State {
    if run == [] then State(map[], {}) else Apply(Exec(run[..|run| - 1]), run[|run| - 1])
  }

  /** The steps of a run, in one piece where their first half is. */
  function Whole(run: seq<Half>): seq<Event> {
    if run == [] then []
    else
      var h := run[|run| - 1];
      Whole(run[..|run| - 1]) + if h.First? then [h.event] else []
  }

  /** The slots that have a state. */
  function Live(q: Slots): Slots {
    map k | k in q && q[k].state.Some? :: q[k]
  }

  lemma FirstHalfLive(q: Slots, e: Event)
    requires forall k :: k in Step(Live(q), e) ==> Step(Live(q), e)[k].state.Some?
    ensures Live(FirstHalf(q, e)) == Step(Live(q), e)
  {
    var a, b := Live(FirstHalf(q, e)), Step(Live(q), e);
    forall k ensures k in a <==> k in b {
    }
    forall k | k in a ensures a[k] == b[k] {
    }
  }

  lemma StatesThere(run: seq<Event>)
    requires FreshKeys(run)
    ensures forall k :: k in SlotsAfter(run) ==> SlotsAfter(run)[k].state.Some?
  {
    forall k | k in SlotsAfter(run) ensures SlotsAfter(run)[k].state.Some? {
      HistoryOk(run, k);
    }
  }

  /** Keys whose removal may come have been added and have no slot with a state. */
  ghost predicate Sound(s: State, whole: seq<Event>) {
    && Live(s.slots) == SlotsAfter(whole)
    && (forall k :: k in s.slots ==> AddedAs(whole, k).Some?)
    && (forall k :: k in s.pending ==> AddedAs(whole, k).Some? && k !in SlotsAfter(whole))
  }

  lemma FreshUpTo(all: seq<Event>, n: nat)
    requires n <= |all| && FreshKeys(all)
    ensures FreshKeys(all[..n])
  {
    assert forall i :: 0 <= i < n ==> all[..n][..i] == all[..i];
  }

  lemma FreshPrefix(run: seq<Event>, e: Event)
    requires FreshKeys(run + [e])
    ensures FreshKeys(run) && (e.Add? ==> AddedAs(run, e.key).None?)
    ensures (run + [e])[..|run|] == run
  {
    var all := run + [e];
    FreshUpTo(all, |run|);
    assert all[..|run|] == run && all[|run|] == e;
  }

  lemma FirstSound(s: State, whole: seq<Event>, e: Event)
    requires Sound(s, whole) && FreshKeys(whole + [e])
    ensures Sound(Apply(s, First(e)), whole + [e])
  {
    FreshPrefix(whole, e);
    StatesThere(whole + [e]);
    FirstHalfLive(s.slots, e);
    var t := Apply(s, First(e));
    forall k | k in t.pending ensures AddedAs(whole + [e], k).Some? && k !in SlotsAfter(whole + [e]) {
      if k != e.key {
        assert k in s.pending;
      }
    }
  }

  /** Removals that come late, or while others use the key, change nothing: the slots that have a
      state are those of the steps in one piece, and every poll gets the same answer. */
  lemma {:induction false} LateRemovalIsUnseen(run: seq<Half>)
    requires FreshKeys(Whole(run))
    ensures Sound(Exec(run), Whole(run))
    ensures forall k, w :: PollSlot(Exec(run).slots, k, w).1 == PollSlot(SlotsAfter(Whole(run)), k, w).1
  {
    if run != [] {
      var prefix, h := run[..|run| - 1], run[|run| - 1];
      if h.First? {
        FreshPrefix(Whole(prefix), h.event);
        LateRemovalIsUnseen(prefix);
        FirstSound(Exec(prefix), Whole(prefix), h.event);
      } else {
        assert Whole(run) == Whole(prefix);
        LateRemovalIsUnseen(prefix);
        assert Live(Exec(run).slots) == Live(Exec(prefix).slots);
      }
    }
    SameAnswers(Exec(run).slots);
  }

  lemma SameAnswers(q: Slots)
    ensures forall k, w :: PollSlot(q, k, w).1 == PollSlot(Live(q), k, w).1
  {
  }
}
