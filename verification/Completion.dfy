/** Completion states of src/io/completion.rs and src/io/entry.rs, and what a queue of slots
    does with them, as functions on values.  The objects are in CompletionQueue.dfy. */
module Completion {
  import opened Wrappers

  type Key = nat
  type Waker = nat

  /** What an operation makes of a result code.  The payload of a success is left out; the
      code stands for it. */
  datatype IoResult = Success(code: nat) | Failure(errno: nat)

  const ECANCELED: nat := 125

  function Outcome(code: int): IoResult {
    if code < 0 then Failure(-code) else Success(code)
  }

  predicate Canceled(r: IoResult) {
    r == Failure(ECANCELED)
  }

  datatype Duration = Zero | Single | Persistent

  datatype Mode = Running | Draining

  datatype IoState =
    | NotCompleted(duration: Duration)
    | Done(result: IoResult)                  // `Single` in the source
    | Multi(queue: seq<IoResult>, mode: Mode)
    | Completed

  /** `IoEntry::complete`: the duration decides the next state; a first result that is a
      cancellation does not start the draining of a persistent operation. */
  function EntryComplete(d: Duration, code: int): IoState {
    match d
    case Zero => Completed
    case Single => Done(Outcome(code))
    case Persistent => Multi([Outcome(code)], Running)
  }

  /** `IoCompletionState::complete`. */
  function CompleteState(s: IoState, code: int): Option<IoState> {
    match s
    case NotCompleted(d) => Some(EntryComplete(d, code))
    case Done(_) => None
    case Multi(queue, mode) => Some(Multi(queue + [Outcome(code)], if Canceled(Outcome(code)) then Draining else mode))
    case Completed => None
  }

  /** `IoCompletionState::into_result`. */
  function IntoResult(s: IoState): (Option<IoResult>, Option<IoState>) {
    match s
    case NotCompleted(_) => (None, Some(s))
    case Done(result) => (Some(result), None)
    case Multi(queue, mode) =>
      var result := if queue == [] then None else Some(queue[0]);
      var rest := if queue == [] then [] else queue[1..];
      (result, if mode == Draining && |queue| <= 1 then None else Some(Multi(rest, mode)))
    case Completed => (None, None)
  }

  // ---------- the queue as a map of slots ----------

  datatype Slot = Slot(state: Option<IoState>, waker: Option<Waker>)

  type Slots = map<Key, Slot>

  /** `Ready(None)` says that there is no such operation. */
  datatype Polled = Ready(result: Option<IoResult>) | Pending

  function AddSlot(q: Slots, k: Key, d: Duration, waker: Option<Waker>): Slots {
    q[k := Slot(Some(NotCompleted(d)), waker)]
  }

  /** The slots after a completion and the waker it wakes. */
  function CompleteSlot(q: Slots, k: Key, code: int): (Slots, Option<Waker>) {
    if k !in q then (q, None)
    else
      var slot := q[k];
      var next := if slot.state.Some? then CompleteState(slot.state.value, code) else None;
      (if next.Some? then q[k := slot.(state := next)] else q - {k}, slot.waker)
  }

  /** The slots after a poll and its answer.  A finished operation of no duration answers
      Pending, and its slot goes all the same. */
  function PollSlot(q: Slots, k: Key, waker: Waker): (Slots, Polled) {
    if k !in q then (q, Ready(None))
    else if q[k].state.None? then (q - {k}, Ready(None))
    else
      var (result, next) := IntoResult(q[k].state.value);
      var slot := Slot(next, if result.Some? then q[k].waker else Some(waker));
      (if next.Some? then q[k := slot] else q - {k}, if result.Some? then Ready(result) else Pending)
  }

  // ---------- runs ----------

  datatype Event =
    | Add(key: Key, duration: Duration, waker: Option<Waker>)
    | Complete(key: Key, code: int)
    | Poll(key: Key, poller: Waker)

  function Step(q: Slots, e: Event): Slots {
    match e
    case Add(k, d, w) => AddSlot(q, k, d, w)
    case Complete(k, code) => CompleteSlot(q, k, code).0
    case Poll(k, w) => PollSlot(q, k, w).0
  }

  function SlotsAfter(run: seq<Event>): Slots {
    if run == [] then map[] else Step(SlotsAfter(run[..|run| - 1]), run[|run| - 1])
  }

  /** Outcomes of the completions that found the slot of k, in order of arrival. */
  function Arrived(run: seq<Event>, k: Key): seq<IoResult> {
    if run == [] then []
    else
      var prefix, e := run[..|run| - 1], run[|run| - 1];
      Arrived(prefix, k) + if e.Complete? && e.key == k && k in SlotsAfter(prefix) then [Outcome(e.code)] else []
  }

  /** Results that polls of k returned, in order. */
  function Delivered(run: seq<Event>, k: Key): seq<IoResult> {
    if run == [] then []
    else
      var prefix, e := run[..|run| - 1], run[|run| - 1];
      Delivered(prefix, k)
      + if e.Poll? && e.key == k then
          match PollSlot(SlotsAfter(prefix), k, e.poller).1
          case Ready(Some(r)) => [r]
          case _ => []
        else []
  }

  function AddedAs(run: seq<Event>, k: Key): Option<Duration> {
    if run == [] then None
    else
      var e := run[|run| - 1];
      if e.Add? && e.key == k then Some(e.duration) else AddedAs(run[..|run| - 1], k)
  }

  /** Keys come from a counter, so none is added twice. */
  ghost predicate FreshKeys(run: seq<Event>) {
    forall i :: 0 <= i < |run| && run[i].Add? ==> AddedAs(run[..i], run[i].key).None?
  }

  /** Some result after the first is a cancellation. */
  ghost predicate CanceledLater(results: seq<IoResult>) {
    exists i :: 0 < i < |results| && Canceled(results[i])
  }

  /** What is true of a key at every point of a run. */
  ghost predicate KeyOk(q: Slots, k: Key, d: Option<Duration>, arrived: seq<IoResult>, delivered: seq<IoResult>) {
    match d
    case None => k !in q && arrived == [] && delivered == []
    case Some(Persistent) =>
      if k !in q then delivered == arrived && CanceledLater(arrived)
      else
        && q[k].state.Some?
        && (match q[k].state.value
            case NotCompleted(d) => d == Persistent && arrived == [] && delivered == []
            case Multi(queue, mode) =>
              && delivered + queue == arrived && arrived != []
              && (mode == Draining <==> CanceledLater(arrived))
              && (mode == Draining ==> queue != [])
            case _ => false)
    case Some(Single) =>
      if k !in q then (delivered == arrived && |arrived| == 1) || (delivered == [] && |arrived| == 2)
      else
        && delivered == [] && q[k].state.Some?
        && (match q[k].state.value
            case NotCompleted(d) => d == Single && arrived == []
            case Done(r) => arrived == [r]
            case _ => false)
    case Some(Zero) =>
      && delivered == []
      && (k in q ==>
            || (q[k].state == Some(NotCompleted(Zero)) && arrived == [])
            || (q[k].state == Some(Completed) && |arrived| == 1))
  }

  lemma CanceledSnoc(results: seq<IoResult>, r: IoResult)
    requires results != []
    ensures CanceledLater(results + [r]) <==> CanceledLater(results) || Canceled(r)
  {
    var all := results + [r];
    assert all[|results|] == r;
    if CanceledLater(results) {
      var i :| 0 < i < |results| && Canceled(results[i]);
      assert Canceled(all[i]);
    }
  }

  lemma CompleteKeyOk(q: Slots, k: Key, d: Option<Duration>, arrived: seq<IoResult>, delivered: seq<IoResult>,
      code: int)
    requires KeyOk(q, k, d, arrived, delivered)
    ensures KeyOk(CompleteSlot(q, k, code).0, k, d, arrived + (if k in q then [Outcome(code)] else []), delivered)
  {
    if k in q {
      var r := Outcome(code);
      if q[k].state.value.Multi? {
        CanceledSnoc(arrived, r);
        assert delivered + (q[k].state.value.queue + [r]) == arrived + [r];
      } else {
        assert [] + [r] == [r];
      }
    } else {
      assert arrived + [] == arrived;
    }
  }

  lemma PollKeyOk(q: Slots, k: Key, d: Option<Duration>, arrived: seq<IoResult>, delivered: seq<IoResult>, waker: Waker)
    requires KeyOk(q, k, d, arrived, delivered)
    ensures var (q', answer) := PollSlot(q, k, waker);
            KeyOk(q', k, d, arrived, delivered + (match answer case Ready(Some(r)) => [r] case _ => []))
  {
    assert delivered + [] == delivered;
    if k in q && q[k].state.value.Multi? && q[k].state.value.queue != [] {
      var queue := q[k].state.value.queue;
      assert delivered + queue == (delivered + [queue[0]]) + queue[1..];
    }
  }

  /** The history of every key, whatever the interleaving of its events with those of others. */
  lemma {:induction false} HistoryOk(run: seq<Event>, k: Key)
    requires FreshKeys(run)
    ensures KeyOk(SlotsAfter(run), k, AddedAs(run, k), Arrived(run, k), Delivered(run, k))
  {
    if run != [] {
      var prefix, e := run[..|run| - 1], run[|run| - 1];
      assert forall i :: 0 <= i < |prefix| ==> prefix[..i] == run[..i];
      HistoryOk(prefix, k);
      var q, d, a, l := SlotsAfter(prefix), AddedAs(prefix, k), Arrived(prefix, k), Delivered(prefix, k);
      assert a + [] == a && l + [] == l;
      if e.key == k {
        match e
        case Add(_, _, _) => assert AddedAs(run[..|run| - 1], e.key).None?;
        case Complete(_, code) => CompleteKeyOk(q, k, d, a, l, code);
        case Poll(_, w) => PollKeyOk(q, k, d, a, l, w);
      } else {
        OtherKeys(q, e, k);
      }
    }
  }

  lemma OtherKeys(q: Slots, e: Event, k: Key)
    requires e.key != k
    ensures k in q <==> k in Step(q, e)
    ensures k in q ==> Step(q, e)[k] == q[k]
  {
  }

  /** Persistent operations: results are delivered in order of arrival and none is lost; while
      the slot is there the rest is still queued, and the slot goes exactly when a cancellation
      other than the first result has arrived and everything received has been delivered. */
  lemma MultishotFifo(run: seq<Event>, k: Key)
    requires FreshKeys(run) && AddedAs(run, k) == Some(Persistent)
    ensures Delivered(run, k) <= Arrived(run, k)
    ensures k in SlotsAfter(run) ==> SlotsAfter(run)[k].state.Some?
    ensures k in SlotsAfter(run) && SlotsAfter(run)[k].state.value.Multi? ==>
              Delivered(run, k) + SlotsAfter(run)[k].state.value.queue == Arrived(run, k)
    ensures k !in SlotsAfter(run) <==> CanceledLater(Arrived(run, k)) && Delivered(run, k) == Arrived(run, k)
  {
    HistoryOk(run, k);
    var q := SlotsAfter(run);
    if k in q && q[k].state.value.Multi? {
      assert |Delivered(run, k) + q[k].state.value.queue| == |Arrived(run, k)|;
    }
  }

  /** Operations of one result: at most one poll gets it and it is the first to arrive; once
      the slot is gone it was delivered exactly when no second completion had come before. */
  lemma SingleDelivery(run: seq<Event>, k: Key)
    requires FreshKeys(run) && AddedAs(run, k) == Some(Single)
    ensures |Delivered(run, k)| <= 1 && Delivered(run, k) <= Arrived(run, k)
    ensures k !in SlotsAfter(run) ==> (|Delivered(run, k)| == 1 <==> |Arrived(run, k)| == 1)
    ensures k in SlotsAfter(run) ==> Delivered(run, k) == []
    ensures |Delivered(run, k)| == 1 ==> k !in SlotsAfter(run)
  {
    HistoryOk(run, k);
  }

  /** How many completions of k there were, and polls after the first of them. */
  function Touches(run: seq<Event>, k: Key): nat {
    if run == [] then 0
    else
      var prefix, e := run[..|run| - 1], run[|run| - 1];
      var before := Touches(prefix, k);
      before + if e.key == k && ((e.Complete? && AddedAs(prefix, k).Some?) || (e.Poll? && before > 0)) then 1 else 0
  }

  lemma {:induction false} ZeroStays(run: seq<Event>, k: Key)
    requires FreshKeys(run) && AddedAs(run, k) == Some(Zero)
    ensures k in SlotsAfter(run) <==> Touches(run, k) <= 1
    ensures k in SlotsAfter(run) ==>
              SlotsAfter(run)[k].state == Some(if Touches(run, k) == 0 then NotCompleted(Zero) else Completed)
  {
    var prefix, e := run[..|run| - 1], run[|run| - 1];
    assert forall i :: 0 <= i < |prefix| ==> prefix[..i] == run[..i];
    if e.Add? && e.key == k {
      NotTouched(prefix, k);
    } else {
      ZeroStays(prefix, k);
      if e.key != k {
        OtherKeys(SlotsAfter(prefix), e, k);
      }
    }
  }

  lemma {:induction false} NotTouched(run: seq<Event>, k: Key)
    requires AddedAs(run, k).None?
    ensures Touches(run, k) == 0
  {
    if run != [] {
      NotTouched(run[..|run| - 1], k);
    }
  }

  /** Operations of no duration deliver nothing.  Their slot stays, Completed once the completion
      is there, exactly until the next poll or completion of the key. */
  lemma ZeroDelivery(run: seq<Event>, k: Key)
    requires FreshKeys(run) && AddedAs(run, k) == Some(Zero)
    ensures Delivered(run, k) == []
    ensures k in SlotsAfter(run) <==> Touches(run, k) <= 1
    ensures k in SlotsAfter(run) ==> |Arrived(run, k)| == Touches(run, k)
    ensures k in SlotsAfter(run) ==> (SlotsAfter(run)[k].state == Some(Completed) <==> Touches(run, k) == 1)
  {
    HistoryOk(run, k);
    ZeroStays(run, k);
  }

  /** A poll that answers Pending leaves its waker in the slot, for the next completion to
      wake, exactly when the operation is not one of no duration that is already completed. */
  lemma PendingIsRegistered(run: seq<Event>, k: Key, waker: Waker)
    requires FreshKeys(run) && PollSlot(SlotsAfter(run), k, waker).1 == Pending
    ensures var q, q' := SlotsAfter(run), PollSlot(SlotsAfter(run), k, waker).0;
            (k in q' && q'[k].waker == Some(waker) && forall code :: CompleteSlot(q', k, code).1 == Some(waker))
            <==> q[k].state != Some(Completed)
  {
    HistoryOk(run, k);
  }

  /** A poll of a finished operation of no duration: Pending, and no waker is left to be woken. */
  lemma CompletedPollIsLost(k: Key, waker: Waker)
    ensures var run := [Add(k, Zero, None), Complete(k, 0)];
            FreshKeys(run) && PollSlot(SlotsAfter(run), k, waker) == (map[], Pending)
  {
    var run := [Add(k, Zero, None), Complete(k, 0)];
    assert run[..1] == [Add(k, Zero, None)] && run[..1][..0] == [] && run[..0] == [];
    assert SlotsAfter(run[..1]) == map[k := Slot(Some(NotCompleted(Zero)), None)];
    assert SlotsAfter(run) == map[k := Slot(Some(Completed), None)];
  }

  // ---------- wakers ----------

  /** Whom a completion of k has to wake: the last poller that was told to wait, and before that
      the waker of the submission. */
  function LastWaker(run: seq<Event>, k: Key): Option<Waker> {
    if run == [] then None
    else
      var prefix, e := run[..|run| - 1], run[|run| - 1];
      match e
      case Add(j, _, w) => if j == k then w else LastWaker(prefix, k)
      case Poll(j, w) =>
        if j == k && PollSlot(SlotsAfter(prefix), k, w).1 == Pending then Some(w) else LastWaker(prefix, k)
      case Complete(_, _) => LastWaker(prefix, k)
  }

  /** In every run a slot holds that waker, and a completion wakes it, whether the slot stays or
      goes; without a slot nobody is woken. */
  lemma {:induction false} CompletionWakes(run: seq<Event>, k: Key, code: int)
    ensures k in SlotsAfter(run) ==> SlotsAfter(run)[k].waker == LastWaker(run, k)
    ensures CompleteSlot(SlotsAfter(run), k, code).1 == if k in SlotsAfter(run) then LastWaker(run, k) else None
  {
    if run != [] {
      var prefix, e := run[..|run| - 1], run[|run| - 1];
      CompletionWakes(prefix, k, code);
      if e.key != k {
        OtherKeys(SlotsAfter(prefix), e, k);
      }
    }
  }

  /** The last to poll k since it was added, or else the waker it was added with. */
  function LastPoller(run: seq<Event>, k: Key): Option<Waker> {
    if run == [] then None
    else
      var prefix, e := run[..|run| - 1], run[|run| - 1];
      match e
      case Add(j, _, w) => if j == k then w else LastPoller(prefix, k)
      case Poll(j, w) => if j == k && AddedAs(prefix, k).Some? then Some(w) else LastPoller(prefix, k)
      case Complete(_, _) => LastPoller(prefix, k)
  }

  /** The first completion of an operation wakes its last poller, and the submitter if there was none. */
  lemma {:induction false} FirstCompletionWakes(run: seq<Event>, k: Key, code: int)
    requires FreshKeys(run) && AddedAs(run, k).Some? && Arrived(run, k) == []
    ensures k in SlotsAfter(run) && CompleteSlot(SlotsAfter(run), k, code).1 == LastPoller(run, k)
  {
    HistoryOk(run, k);
    var prefix, e := run[..|run| - 1], run[|run| - 1];
    assert forall i :: 0 <= i < |prefix| ==> prefix[..i] == run[..i];
    if !(e.Add? && e.key == k) {
      FirstCompletionWakes(prefix, k, code);
      if e.key != k {
        OtherKeys(SlotsAfter(prefix), e, k);
      } else {
        HistoryOk(prefix, k);
      }
    }
  }

  // ---------- result codes ----------

  /** Minus 125 is the code of a cancelled operation, and the second such result ends a persistent
      one: what is queued is still delivered, and then the slot goes. */
  lemma CancelledRun(k: Key, w: Waker)
    ensures var run := [Add(k, Persistent, None), Complete(k, 7), Complete(k, -125)];
            var first := PollSlot(SlotsAfter(run), k, w);
            var second := PollSlot(first.0, k, w);
            && first.1 == Ready(Some(Success(7))) && k in first.0
            && second.1 == Ready(Some(Failure(125))) && k !in second.0
  {
    var run := [Add(k, Persistent, None), Complete(k, 7), Complete(k, -125)];
    var a, b := run[..1], run[..2];
    assert a == [run[0]] && b[..1] == a && a[..0] == [] && run[..2] == b;
    assert SlotsAfter(a) == map[k := Slot(Some(NotCompleted(Persistent)), None)];
    assert SlotsAfter(b) == map[k := Slot(Some(Multi([Success(7)], Running)), None)];
    assert [Success(7)] + [Failure(125)] == [Success(7), Failure(125)];
    assert SlotsAfter(run) == map[k := Slot(Some(Multi([Success(7), Failure(125)], Draining)), None)];
  }

  /** As the first result it does not, and other errors never do. */
  lemma RunningRun(k: Key)
    ensures var run := [Add(k, Persistent, None), Complete(k, -125), Complete(k, -4)];
            SlotsAfter(run) == map[k := Slot(Some(Multi([Failure(125), Failure(4)], Running)), None)]
  {
    var run := [Add(k, Persistent, None), Complete(k, -125), Complete(k, -4)];
    var a, b := run[..1], run[..2];
    assert a == [run[0]] && b[..1] == a && a[..0] == [] && run[..2] == b;
    assert SlotsAfter(a) == map[k := Slot(Some(NotCompleted(Persistent)), None)];
    assert SlotsAfter(b) == map[k := Slot(Some(Multi([Failure(125)], Running)), None)];
    assert [Failure(125)] + [Failure(4)] == [Failure(125), Failure(4)];
  }
}
