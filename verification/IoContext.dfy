/** The bounded submission ring and the backlog in front of it (src/io/context.rs and the
    retry loop of src/worker/mod.rs). */
module IoContext {
  import opened Wrappers
  import opened Completion
  import opened CompletionQueue

  datatype Submission = Submission(key: Key, duration: Duration, waker: Option<Waker>)

  /** `ring` holds entries that were pushed and not yet submitted, `inflight` those the kernel
      works on, `cq` the completions it posted. */
  datatype Io = Io(ring: seq<Key>, inflight: set<Key>, cq: seq<(Key, int)>, slots: Slots)

  /** `prepare_submission`: a full ring hands the submission back. */
  function PrepareSubmission(io: Io, capacity: nat, s: Submission): (Io, Option<Submission>) {
    if |io.ring| >= capacity then (io, Some(s))
    else (io.(ring := io.ring + [s.key], slots := AddSlot(io.slots, s.key, s.duration, s.waker)), None)
  }

  /** Submission accepts the whole ring. */
  function Submit(io: Io): Io {
    io.(ring := [], inflight := io.inflight + set k | k in io.ring)
  }

  function CompleteAll(q: Slots, cq: seq<(Key, int)>): Slots {
    if cq == [] then q else CompleteAll(CompleteSlot(q, cq[0].0, cq[0].1).0, cq[1..])
  }

  /** The retry loop: takes submissions off the front of the backlog; the first that finds the
      ring full goes to the back and ends the loop. */
  function Retry(io: Io, capacity: nat, waiting: seq<Submission>): (Io, seq<Submission>)
    decreases |waiting|
  {
    if waiting == [] then (io, [])
    else
      var (next, rejected) := PrepareSubmission(io, capacity, waiting[0]);
      if rejected.Some? then (next, waiting[1..] + [waiting[0]]) else Retry(next, capacity, waiting[1..])
  }

  function Keys(subs: seq<Submission>): seq<Key> {
    seq(|subs|, i requires 0 <= i < |subs| => subs[i].key)
  }

  /** The retry loop moves as many submissions as the ring has room for, in order; what is left
      of the backlog is rotated by one, and if anything is left the ring is full. */
  lemma {:induction false} RetryMoves(io: Io, capacity: nat, waiting: seq<Submission>)
    requires |io.ring| <= capacity
    ensures var n := if |waiting| <= capacity - |io.ring| then |waiting| else capacity - |io.ring|;
            var (next, rest) := Retry(io, capacity, waiting);
            && next.ring == io.ring + Keys(waiting[..n])
            && (forall k :: k in next.slots <==> k in io.slots || k in Keys(waiting[..n]))
            && rest == (if n < |waiting| then waiting[n + 1..] + [waiting[n]] else [])
            && (rest != [] ==> |next.ring| == capacity)
            && next.inflight == io.inflight && next.cq == io.cq
    decreases |waiting|
  {
    if waiting != [] && |io.ring| < capacity {
      var next := PrepareSubmission(io, capacity, waiting[0]).0;
      RetryMoves(next, capacity, waiting[1..]);
      var room := capacity - |io.ring|;
      var n := if |waiting| <= room then |waiting| else room;
      assert waiting[..n] == [waiting[0]] + waiting[1..][..n - 1];
      assert Keys(waiting[..n]) == [waiting[0].key] + Keys(waiting[1..][..n - 1]);
      assert io.ring + [waiting[0].key] + Keys(waiting[1..][..n - 1]) == io.ring + Keys(waiting[..n]);
      if n < |waiting| {
        assert waiting[1..][n - 1 + 1..] == waiting[n + 1..];
      }
    } else {
      assert Keys(waiting[..0]) == [];
    }
  }

  class Context {
    const capacity: nat
    var ring: seq<Key>
    var inflight: set<Key>
    var cq: seq<(Key, int)>
    var completionQueue: IoCompletionQueue

    constructor (capacity: nat)
      ensures this.capacity == capacity && Valid()
      ensures Value() == Io([], {}, [], map[])
    {
      this.capacity := capacity;
      ring, inflight, cq := [], {}, [];
      completionQueue := new IoCompletionQueue();
    }

    ghost predicate Valid()
      reads this, completionQueue
    {
      completionQueue.Valid()
    }

    ghost function Value(): Io
      reads this, completionQueue, completionQueue.inner.Values
    {
      Io(ring, inflight, cq, completionQueue.Slots())
    }

    method TryPushEntry(k: Key) returns (pushed: bool)
      modifies this`ring
      ensures pushed <==> |old(ring)| < capacity
      ensures ring == if pushed then old(ring) + [k] else old(ring)
    {
      pushed := |ring| < capacity;
      if pushed {
        ring := ring + [k];
      }
    }

    method Prepare(s: Submission) returns (rejected: Option<Submission>)
      requires Valid()
      modifies this`ring, completionQueue
      ensures Valid() && (Value(), rejected) == PrepareSubmission(old(Value()), capacity, s)
    {
      var pushed := TryPushEntry(s.key);
      if !pushed {
        return Some(s);
      }
      completionQueue.AddEntry(s.key, s.duration, s.waker);
      rejected := None;
    }

    method SubmitRing()
      modifies this`ring, this`inflight
      ensures Value() == Submit(old(Value()))
    {
      inflight := inflight + set k | k in ring;
      ring := [];
    }

    /** Reaps every posted completion in order. */
    method Complete()
      requires Valid()
      modifies this`cq, completionQueue, completionQueue.inner.Values
      ensures Valid() && Value() == old(Value()).(cq := [], slots := CompleteAll(old(Value()).slots, old(cq)))
    {
      while cq != []
        invariant Valid() && completionQueue.inner.Values <= old(completionQueue.inner.Values)
        invariant CompleteAll(completionQueue.Slots(), cq) == CompleteAll(old(Value()).slots, old(cq))
        invariant ring == old(ring) && inflight == old(inflight)
        decreases |cq|
      {
        var item := cq[0];
        cq := cq[1..];
        var removed, woken := completionQueue.Complete(item.0, item.1);
      }
    }

    /** The retry loop of the worker. */
    method RetryWaiting(waiting: seq<Submission>) returns (rest: seq<Submission>, shouldSubmit: bool)
      requires Valid()
      modifies this`ring, completionQueue
      ensures Valid() && (Value(), rest) == Retry(old(Value()), capacity, waiting)
      ensures shouldSubmit <==> |ring| > |old(ring)|
    {
      rest := waiting;
      shouldSubmit := false;
      while rest != []
        invariant Valid() && |ring| >= |old(ring)| && (shouldSubmit <==> |ring| > |old(ring)|)
        invariant Retry(Value(), capacity, rest) == Retry(old(Value()), capacity, waiting)
        decreases |rest|
      {
        var submission := rest[0];
        var rejected := Prepare(submission);
        rest := rest[1..];
        if rejected.Some? {
          rest := rest + [rejected.value];
          break;
        } else if !shouldSubmit {
          shouldSubmit := true;
        }
      }
    }
  }
}
