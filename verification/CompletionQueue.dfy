/** The objects of src/io/completion_queue.rs: slots that are updated in place, and the shared
    map of them. */
module CompletionQueue {
  import opened Wrappers
  import opened Completion

  class IoCompletionSlot {
    var state: Option<IoState>
    var waker: Option<Waker>

    constructor (d: Duration, waker: Option<Waker>)
      ensures Value() == Slot(Some(NotCompleted(d)), waker)
    {
      this.state, this.waker := Some(NotCompleted(d)), waker;
    }

    function Value(): Slot
      reads this
    {
      Slot(state, waker)
    }

    /** Takes the state, completes it, and wakes the waker whether or not the slot survives. */
    method Complete(code: int) returns (valid: bool, woken: Option<Waker>)
      modifies this
      ensures valid <==> old(state).Some? && CompleteState(old(state).value, code).Some?
      ensures state == if valid then CompleteState(old(state).value, code) else None
      ensures waker == old(waker) && woken == waker
    {
      var taken := state;
      state := None;
      valid := false;
      if taken.Some? {
        var next := CompleteState(taken.value, code);
        if next.Some? {
          state := next;
          valid := true;
        }
      }
      woken := waker;
    }

    /** Takes the next result out of the state; fails if there is no state. */
    method TryExtractResult() returns (r: Result<Option<IoResult>, ()>)
      modifies this`state
      ensures r.Ok? <==> old(state).Some?
      ensures r.Ok? ==> (r.value, state) == IntoResult(old(state).value)
      ensures r.Err? ==> state == None
    {
      if state.None? {
        return Err(());
      }
      var (result, next) := IntoResult(state.value);
      state := next;
      r := Ok(result);
    }
  }

  class IoCompletionQueue {
    var inner: map<Key, IoCompletionSlot>

    constructor ()
      ensures Valid() && inner == map[]
    {
      inner := map[];
    }

    /** No two keys share a slot. */
    ghost predicate Valid()
      reads this
    {
      forall j, k :: j in inner && k in inner && j != k ==> inner[j] != inner[k]
    }

    ghost function Slots(): Slots
      reads this, inner.Values
    {
      map k | k in inner :: inner[k].Value()
    }

    /** Takes a result out of the slot, or leaves the waker there; a slot without a state goes. */
    method Poll(key: Key, waker: Waker) returns (answer: Polled)
      requires Valid()
      modifies this, inner.Values
      ensures Valid() && inner.Values <= old(inner.Values)
      ensures (Slots(), answer) == PollSlot(old(Slots()), key, waker)
    {
      if key !in inner {
        return Ready(None);
      }
      var slot := inner[key];
      var result := slot.TryExtractResult();
      var valid := slot.state.Some?;
      if result.Err? {
        answer := Ready(None);
      } else if result.value.Some? {
        answer := Ready(result.value);
      } else {
        slot.waker := Some(waker);
        answer := Pending;
      }
      if !valid {
        inner := inner - {key};
      }
      assert Slots() == PollSlot(old(Slots()), key, waker).0;
    }

    method AddEntry(key: Key, d: Duration, waker: Option<Waker>)
      requires Valid()
      modifies this
      ensures Valid() && Slots() == AddSlot(old(Slots()), key, d, waker)
      ensures forall k :: k in inner && k != key ==> k in old(inner) && inner[k] == old(inner)[k]
      ensures key in inner && fresh(inner[key])
    {
      var slot := new IoCompletionSlot(d, waker);
      inner := inner[key := slot];
    }

    /** Completes the slot; one that cannot take the completion goes. */
    method Complete(key: Key, code: int) returns (removed: bool, woken: Option<Waker>)
      requires Valid()
      modifies this, inner.Values
      ensures Valid() && inner.Values <= old(inner.Values)
      ensures (Slots(), woken) == CompleteSlot(old(Slots()), key, code)
      ensures removed <==> key in old(inner) && key !in inner
    {
      if key !in inner {
        return false, None;
      }
      var slot := inner[key];
      var valid;
      valid, woken := slot.Complete(code);
      if !valid {
        inner := inner - {key};
      }
      removed := !valid;
      assert Slots() == CompleteSlot(old(Slots()), key, code).0;
    }
  }
}
