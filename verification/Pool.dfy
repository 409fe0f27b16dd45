/** Round-robin choice of a worker (src/pool.rs), with the counter's 64-bit wrap-around. */
module Pool {
  import opened Wrappers
  import opened Words
  import opened WorkerLoop

  predicate Usable(w: WorkerState) {
    w != Unstarted && w != Stopped && w != Stopping
  }

  /** Exactly running workers are chosen: idle, busy or about to start. */
  lemma UsableExact(w: WorkerState)
    ensures Usable(w) <==> w == Starting || w == Idle || w == Busy
  {
  }

  /** The worker that the j-th try visits. */
  function Visit(counter: word, j: nat, n: nat): nat
    requires n > 0
  {
    (counter + j) % WORD % n
  }

  /** The tries before the j-th all found workers that cannot be used. */
  ghost predicate Passed(workers: seq<WorkerState>, counter: word, j: nat, n: nat)
    requires n > 0
  {
    forall i :: 0 <= i < j ==> Visit(counter, i, n) < |workers| && !Usable(workers[Visit(counter, i, n)])
  }

  /** The j-th try is the first that finds a usable worker. */
  ghost predicate Found(workers: seq<WorkerState>, counter: word, j: nat, n: nat)
    requires n > 0
  {
    Passed(workers, counter, j, n) && Visit(counter, j, n) < |workers| && Usable(workers[Visit(counter, j, n)])
  }

  /** The j-th try goes beyond the workers, and those before it found none. */
  ghost predicate Beyond(workers: seq<WorkerState>, counter: word, j: nat, n: nat)
    requires n > 0
  {
    Passed(workers, counter, j, n) && Visit(counter, j, n) >= |workers|
  }

  /** Some try within the n visits a worker that can be used. */
  ghost predicate Finds(workers: seq<WorkerState>, counter: word, n: nat)
    requires n > 0
  {
    exists j :: 0 <= j < n && Visit(counter, j, n) < |workers| && Usable(workers[Visit(counter, j, n)])
  }

  class ThreadPool {
    const threads: word
    var workers: seq<WorkerState>
    var nextId: word

    constructor (threads: word)
      ensures this.threads == threads && workers == [] && nextId == 0
    {
      this.threads, workers, nextId := threads, [], 0;
    }

    method NextWorkerId() returns (id: nat)
      requires threads > 0
      modifies this`nextId
      ensures id == Visit(old(nextId), 0, threads) && nextId == (old(nextId) + 1) % WORD
    {
      id := nextId;
      nextId := (nextId + 1) % WORD;
      id := id % threads;
    }

    /** Finds the first usable worker in order of visit; fails if there is none among the tries
        or a try goes beyond the workers. */
    method GetNextWorker() returns (r: Result<nat, ()>)
      modifies this`nextId
      ensures threads == 0 ==> r.Err? && nextId == old(nextId)
      ensures r.Ok? ==> exists j :: 0 <= j < threads && Found(workers, old(nextId), j, threads)
                          && r.value == Visit(old(nextId), j, threads) && nextId == (old(nextId) + j + 1) % WORD
      ensures r.Err? && threads > 0 ==>
                || (Passed(workers, old(nextId), threads, threads) && nextId == (old(nextId) + threads) % WORD)
                || (exists j :: 0 <= j < threads && Beyond(workers, old(nextId), j, threads))
      ensures threads > 0 && |workers| == threads ==> (r.Ok? <==> Finds(workers, old(nextId), threads))
    {
      for i := 0 to threads
        invariant threads > 0 ==> nextId == (old(nextId) + i) % WORD && Passed(workers, old(nextId), i, threads)
        invariant threads == 0 ==> nextId == old(nextId)
      {
        WrapStep(old(nextId), i);
        var id := NextWorkerId();
        assert id == Visit(old(nextId), i, threads);
        if id >= |workers| {
          assert Beyond(workers, old(nextId), i, threads);
          return Err(());
        }
        var state := workers[id];
        if state == Unstarted || state == Stopped || state == Stopping {
          continue;
        }
        assert Found(workers, old(nextId), i, threads);
        return Ok(id);
      }
      r := Err(());
    }
  }

  lemma WrapStep(counter: word, i: nat)
    ensures ((counter + i) % WORD + 1) % WORD == (counter + i + 1) % WORD
    ensures ((counter + i) % WORD + 0) % WORD == (counter + i) % WORD
  {
  }

  // ---------- which workers are visited ----------

  ghost predicate Visited(counter: word, r: nat, n: nat)
    requires n > 0
  {
    exists j :: 0 <= j < n && Visit(counter, j, n) == r
  }

  lemma MulBound(d: int, n: int)
    requires n >= 0
    ensures d >= 1 ==> d * n >= n
    ensures d <= -1 ==> d * n <= 0 - n
  {
  }

  lemma Distribute(a: int, b: int, n: int)
    ensures (a - b) * n == a * n - b * n && (a + b) * n == a * n + b * n
  {
  }

  lemma ModUnique(x: nat, q: int, r: nat, n: nat)
    requires r < n && x == q * n + r
    ensures x % n == r
  {
    Distribute(q, x / n, n);
    MulBound(q - x / n, n);
    assert (x / n) * n + x % n == x;
  }

  lemma ModShift(q: nat, n: nat, x: nat)
    requires n > 0
    ensures (q * n + x) % n == x % n
  {
    Distribute(q, x / n, n);
    assert (x / n) * n + x % n == x;
    ModUnique(q * n + x, q + x / n, x % n, n);
  }

  /** A number modulo n, plus less than n. */
  lemma ModPlus(c: nat, j: nat, n: nat)
    requires n > 0 && j <= n
    ensures (c + j) % n == if c % n + j < n then c % n + j else c % n + j - n
  {
    var q, m := c / n, c % n;
    assert c == q * n + m;
    if m + j < n {
      ModUnique(c + j, q, m + j, n);
    } else {
      Distribute(q, 1, n);
      ModUnique(c + j, q + 1, m + j - n, n);
    }
  }

  /** The try that visits worker r when the wrap does not matter. */
  function TryFor(counter: word, r: nat, n: nat): nat
    requires r < n
  {
    if counter % n <= r then r - counter % n else r + n - counter % n
  }

  lemma Regular(counter: word, r: nat, n: nat)
    requires r < n < WORD && (counter + n <= WORD || WORD % n == 0)
    ensures Visited(counter, r, n)
  {
    var j := TryFor(counter, r, n);
    ModPlus(counter, j, n);
    assert (counter + j) % n == r;
    WrapIsMod(counter + j, n);
    assert Visit(counter, j, n) == r;
  }

  lemma WrapIsMod(x: nat, n: nat)
    requires 0 < n && x < 2 * WORD && (x < WORD || WORD % n == 0)
    ensures x % WORD % n == x % n
  {
    if x >= WORD {
      assert WORD == WORD / n * n;
      ModShift(WORD / n, n, x - WORD);
    }
  }

  /** Worker that is missed when the counter wraps among the tries and n does not divide the word. */
  function Missed(counter: word, n: nat): nat
    requires 0 < n < WORD
  {
    var w := WORD - counter;
    if WORD % n >= n - w then WORD % n else n - w
  }

  lemma BeforeWrap(counter: word, j: nat, n: nat)
    requires 0 < n < WORD && counter + n > WORD && WORD % n != 0 && counter + j < WORD
    ensures Visit(counter, j, n) != Missed(counter, n)
  {
    var w, m := WORD - counter, WORD % n;
    ModPlus(counter, w, n);
    ModPlus(counter, j, n);
  }

  lemma AfterWrap(counter: word, j: nat, n: nat)
    requires 0 < n < WORD && counter + n > WORD && j < n && counter + j >= WORD
    ensures Visit(counter, j, n) == counter + j - WORD < n - (WORD - counter)
  {
    var x := counter + j - WORD;
    assert (counter + j) % WORD == x;
    ModUnique(x, 0, x, n);
  }

  lemma Irregular(counter: word, n: nat)
    requires 0 < n < WORD && counter + n > WORD && WORD % n != 0
    ensures Missed(counter, n) < n && !Visited(counter, Missed(counter, n), n)
  {
    forall j | 0 <= j < n ensures Visit(counter, j, n) != Missed(counter, n) {
      if counter + j < WORD { BeforeWrap(counter, j, n); } else { AfterWrap(counter, j, n); }
    }
  }

  /** A pool finds a usable worker whenever it has one, whatever the states, exactly when the
      counter does not wrap among the tries or the number of workers divides the word. */
  lemma RoundRobinExact(counter: word, n: nat)
    requires 0 < n < WORD
    ensures (forall workers: seq<WorkerState> :: |workers| == n ==>
               (Finds(workers, counter, n) <==> exists r :: 0 <= r < n && Usable(workers[r])))
            <==> counter + n <= WORD || WORD % n == 0
  {
    if counter + n <= WORD || WORD % n == 0 {
      forall workers: seq<WorkerState> | |workers| == n
        ensures Finds(workers, counter, n) <==> exists r :: 0 <= r < n && Usable(workers[r])
      {
        if r :| 0 <= r < n && Usable(workers[r]) {
          Regular(counter, r, n);
        }
      }
    } else {
      Irregular(counter, n);
      var missed := Missed(counter, n);
      var workers := seq(n, i => if i == missed then Idle else Stopped);
      assert Usable(workers[missed]) && !Finds(workers, counter, n);
    }
  }

  /** Three workers, one of them usable, and the counter at its last value: none is found. */
  lemma WrapMissesWorker()
    ensures !Finds([Stopped, Stopped, Idle], WORD - 1, 3) && Usable(Idle)
  {
    assert Visit(WORD - 1, 0, 3) == 0 && Visit(WORD - 1, 1, 3) == 0 && Visit(WORD - 1, 2, 3) == 1;
  }
}
