/**
 * Admission control around methods annotated with LimitAccess
 * (LimitAccessAspect and its nested ReentrantSemaphore).
 *
 * Each semaphore name owns a counting semaphore whose permits are taken
 * only by a thread's outermost acquire; nested acquires by the same thread
 * only raise that thread's hold count. Semaphores and pause barriers live
 * in two lazily filled registries. The aspect picks one of three handlers
 * from the annotation; every handler takes the permit, runs the wrapped
 * method, and gives the permit back in a `finally` block.
 *
 * Threads are named by a ThreadId; a thread's ThreadLocal hold count is an
 * entry of the `holds` map. Blocking is not modelled: an acquire that would
 * block returns only by being interrupted, or once a permit is free.
 */
module DbPressure {
  import opened Wrappers

  type ThreadId = nat

  /** A positive hold count. A thread with no holds has no entry, as after ThreadLocal.remove. */
  type Count = n: nat | n > 0 witness 1

  const DefaultSemaphoreName: string := "default"

  /** LimitAccessConfigProperties.maxAccess. */
  const DefaultMaxAccess: int := 170

  /** The configuration: permits per configured semaphore name, and the fallback capacity. */
  datatype LimitAccessConfig = LimitAccessConfig(semaphores: map<string, int>, maxAccess: int)

  const DefaultConfig: LimitAccessConfig := LimitAccessConfig(map[], DefaultMaxAccess)

  /** The LimitAccess annotation. `skipIfNotAvailable` is declared but never read by the aspect. */
  datatype LimitAccess = LimitAccess(semaphoreName: string, isPhaser: bool, isWaiter: bool, skipIfNotAvailable: bool)

  /** The annotation's default values. */
  const DefaultLimitAccess: LimitAccess := LimitAccess(DefaultSemaphoreName, false, false, false)

  // ---------------------------------------------------------------------
  // ReentrantSemaphore, as a value
  // ---------------------------------------------------------------------

  /** The state of one ReentrantSemaphore: the semaphore's permits and every thread's hold count. */
  datatype SemState = SemState(permits: int, holds: map<ThreadId, Count>)

  /** `holds.get()` for thread t: the ThreadLocal's initial value is 0. */
  function HoldOf(s: SemState, t: ThreadId): nat {
    if t in s.holds then s.holds[t] else 0
  }

  /** Whether the acquire of thread t takes the path that does not block on the semaphore. */
  predicate Acquires(s: SemState, t: ThreadId, interrupted: bool) {
    !(interrupted && HoldOf(s, t) == 0)
  }

  /**
   * An acquire call returns in this model: it is nested, a permit is free,
   * or the thread is interrupted while it waits.
   */
  predicate CanAcquire(s: SemState, t: ThreadId, interrupted: bool) {
    interrupted || HoldOf(s, t) > 0 || s.permits > 0
  }

  /**
   * ReentrantSemaphore.acquire for thread t. None is the InterruptedException
   * of `semaphore.acquire()`, which leaves the state as it was.
   */
  function AcquireSpec(s: SemState, t: ThreadId, interrupted: bool): (r: Option<SemState>)
    requires CanAcquire(s, t, interrupted)
    ensures r.Some? <==> Acquires(s, t, interrupted)
    ensures r.Some? ==> HoldOf(r.value, t) == HoldOf(s, t) + 1
    ensures r.Some? ==> r.value.permits == if HoldOf(s, t) == 0 then s.permits - 1 else s.permits
    ensures r.Some? ==> forall u :: u != t ==> HoldOf(r.value, u) == HoldOf(s, u)
    ensures r.Some? && HoldOf(s, t) == 0 ==> r.value.permits >= 0
  {
    var h := HoldOf(s, t);
    if h == 0 && interrupted then None
    else Some(SemState(if h == 0 then s.permits - 1 else s.permits, s.holds[t := h + 1]))
  }

  /** ReentrantSemaphore.release for thread t. */
  function ReleaseSpec(s: SemState, t: ThreadId): (r: SemState)
    ensures HoldOf(s, t) == 0 ==> r == s
    ensures HoldOf(s, t) == 1 ==> r.permits == s.permits + 1 && t !in r.holds
    ensures HoldOf(s, t) > 1 ==> r.permits == s.permits && HoldOf(r, t) == HoldOf(s, t) - 1
    ensures forall u :: u != t ==> HoldOf(r, u) == HoldOf(s, u)
  {
    var h := HoldOf(s, t);
    if h == 0 then s
    else if h == 1 then SemState(s.permits + 1, s.holds - {t})
    else SemState(s.permits, s.holds[t := h - 1])
  }

  /** A release undoes the acquire just before it, exactly. */
  lemma AcquireThenRelease(s: SemState, t: ThreadId)
    requires CanAcquire(s, t, false)
    ensures ReleaseSpec(AcquireSpec(s, t, false).value, t) == s
  {
    var h := HoldOf(s, t);
    var r := ReleaseSpec(AcquireSpec(s, t, false).value, t);
    if h == 0 {
      assert r.holds == s.holds[t := 1] - {t};
    } else {
      assert r.holds == s.holds[t := h + 1][t := h];
    }
    assert r.holds == s.holds;
  }

  /** n acquires by thread t in a row. */
  function AcquireN(s: SemState, t: ThreadId, n: nat): (r: SemState)
    requires n == 0 || CanAcquire(s, t, false)
    ensures HoldOf(r, t) == HoldOf(s, t) + n
    ensures r.permits == if n > 0 && HoldOf(s, t) == 0 then s.permits - 1 else s.permits
    ensures forall u :: u != t ==> HoldOf(r, u) == HoldOf(s, u)
  {
    if n == 0 then s else AcquireSpec(AcquireN(s, t, n - 1), t, false).value
  }

  /** n releases by thread t in a row. */
  function ReleaseN(s: SemState, t: ThreadId, n: nat): (r: SemState)
    ensures HoldOf(r, t) == if HoldOf(s, t) >= n then HoldOf(s, t) - n else 0
    ensures r.permits == if HoldOf(s, t) > 0 && n >= HoldOf(s, t) then s.permits + 1 else s.permits
    ensures forall u :: u != t ==> HoldOf(r, u) == HoldOf(s, u)
    decreases n
  {
    if n == 0 then s else ReleaseN(ReleaseSpec(s, t), t, n - 1)
  }

  /**
   * Nesting: n acquires followed by n releases by one thread restore the
   * whole semaphore state (and AcquireN/ReleaseN show the permits move by
   * at most one in each direction).
   */
  lemma {:induction false} NestedAcquireReleaseRestores(s: SemState, t: ThreadId, n: nat)
    requires n == 0 || CanAcquire(s, t, false)
    ensures ReleaseN(AcquireN(s, t, n), t, n) == s
  {
    if n > 0 {
      var inner := AcquireN(s, t, n - 1);
      AcquireThenRelease(inner, t);
      NestedAcquireReleaseRestores(s, t, n - 1);
    }
  }

  /** A mutable ReentrantSemaphore: a fair counting semaphore plus per-thread hold counts. */
  class ReentrantSemaphore {
    var permits: int
    var holds: map<ThreadId, Count>

    function State(): SemState
      reads this
    {
      SemState(permits, holds)
    }

    constructor (permits: int)
      ensures State() == SemState(permits, map[])
    {
      this.permits := permits;
      this.holds := map[];
    }

    /** Returns false when `semaphore.acquire()` throws InterruptedException. */
    method Acquire(t: ThreadId, interrupted: bool) returns (acquired: bool)
      requires CanAcquire(State(), t, interrupted)
      modifies this
      ensures acquired == Acquires(old(State()), t, interrupted)
      ensures State() == if acquired then AcquireSpec(old(State()), t, interrupted).value else old(State())
    {
      var h := if t in holds then holds[t] else 0;
      if h == 0 {
        if interrupted {
          return false;
        }
        permits := permits - 1;
      }
      holds := holds[t := h + 1];
      acquired := true;
    }

    method Release(t: ThreadId)
      modifies this
      ensures State() == ReleaseSpec(old(State()), t)
    {
      var h: nat := if t in holds then holds[t] else 0;
      if h <= 0 {
        return;
      }
      var next: nat := h - 1;
      if next == 0 {
        holds := holds - {t};
        permits := permits + 1;
      } else {
        holds := holds[t := next];
      }
    }
  }

  // ---------------------------------------------------------------------
  // The semaphore registry, as a value
  // ---------------------------------------------------------------------

  /** The registry after `init`: one semaphore per configured name, with its configured permits. */
  function InitSpec(config: LimitAccessConfig): (r: map<string, SemState>)
    ensures r.Keys == config.semaphores.Keys
    ensures forall k :: k in r ==> r[k] == SemState(config.semaphores[k], map[])
  {
    map k | k in config.semaphores :: SemState(config.semaphores[k], map[])
  }

  /**
   * The registry key of retrieveSemaphore: the declared name, except that
   * "default" stands for the trigger's current data-source key (or "default"
   * itself when there is no trigger).
   */
  function RegistryKey(name: string, currentKey: Option<string>): (k: string)
    ensures name != DefaultSemaphoreName ==> k == name
    ensures name == DefaultSemaphoreName && currentKey.None? ==> k == DefaultSemaphoreName
    ensures name == DefaultSemaphoreName && currentKey.Some? ==> k == currentKey.value
  {
    if name != DefaultSemaphoreName then name else currentKey.GetOr(DefaultSemaphoreName)
  }

  /**
   * The permits of a semaphore that retrieveSemaphore creates: the configured
   * permits of a declared name, else maxAccess; always maxAccess on the
   * "default" path, whatever the resolved key.
   */
  function NewPermits(config: LimitAccessConfig, name: string): (p: int)
    ensures name != DefaultSemaphoreName && name in config.semaphores ==> p == config.semaphores[name]
    ensures name == DefaultSemaphoreName || name !in config.semaphores ==> p == config.maxAccess
  {
    if name != DefaultSemaphoreName && name in config.semaphores then config.semaphores[name]
    else config.maxAccess
  }

  /** retrieveSemaphore on the registry: insert-if-absent under RegistryKey. */
  function RetrieveSpec(reg: map<string, SemState>, config: LimitAccessConfig, name: string, currentKey: Option<string>)
    : (r: map<string, SemState>)
    ensures RegistryKey(name, currentKey) in r
    ensures r.Keys == reg.Keys + {RegistryKey(name, currentKey)}
    ensures RegistryKey(name, currentKey) in reg ==> r == reg
    ensures RegistryKey(name, currentKey) !in reg ==>
              r[RegistryKey(name, currentKey)] == SemState(NewPermits(config, name), map[])
    ensures forall k :: k in reg ==> r[k] == reg[k]
  {
    var key := RegistryKey(name, currentKey);
    if key in reg then reg else reg[key := SemState(NewPermits(config, name), map[])]
  }

  /** Retrieving twice is retrieving once. */
  lemma RetrieveIdempotent(reg: map<string, SemState>, config: LimitAccessConfig, name: string, currentKey: Option<string>)
    ensures var once := RetrieveSpec(reg, config, name, currentKey);
            RetrieveSpec(once, config, name, currentKey) == once
  {
  }

  /**
   * On a freshly initialised registry, the semaphore a call resolves to has
   * the configured permits of its registry key when that key is configured,
   * and maxAccess otherwise, with no holds.
   */
  lemma RetrieveAfterInit(config: LimitAccessConfig, name: string, currentKey: Option<string>)
    ensures var k := RegistryKey(name, currentKey);
            RetrieveSpec(InitSpec(config), config, name, currentKey)[k]
            == SemState(if k in config.semaphores then config.semaphores[k] else config.maxAccess, map[])
  {
  }

  // ---------------------------------------------------------------------
  // Handlers, as values
  // ---------------------------------------------------------------------

  /** What the wrapped method, the aspect and the pause barrier may throw. */
  datatype Exception = InterruptedException | IllegalArgumentException | Thrown(name: string)

  /** One invocation's effect as the caller sees it: a returned value or a thrown exception. */
  datatype Outcome = Returned(value: int) | Threw(exc: Exception)

  /** The three handlers of `around`. */
  datatype Mode = PhaserMode | WaiterMode | DefaultMode

  /** `around`'s choice of handler: phaser first, then waiter, then default. */
  function SelectMode(a: LimitAccess): (m: Mode)
    ensures m == PhaserMode <==> a.isPhaser
    ensures m == WaiterMode <==> !a.isPhaser && a.isWaiter
    ensures m == DefaultMode <==> !a.isPhaser && !a.isWaiter
  {
    if a.isPhaser then PhaserMode
    else if a.isWaiter then WaiterMode
    else DefaultMode
  }

  /** PauseBarrier.ResultOrExc: the tagged result a paused run carries out of the barrier. */
  datatype ResultOrExc = Value(t: int) | Error(cause: Exception)

  /** The critical section handed to the barrier: proceed, catching every Throwable. */
  function Capture(o: Outcome): (p: ResultOrExc)
    ensures p.Error? <==> o.Threw?
  {
    match o
    case Returned(v) => Value(v)
    case Threw(e) => Error(e)
  }

  /** What handlePhaser does with the barrier's result: rethrow the cause, or return the value. */
  function Rethrow(p: ResultOrExc): Outcome {
    match p
    case Value(v) => Returned(v)
    case Error(e) => Threw(e)
  }

  /** Passing through the barrier changes neither a value nor an exception. */
  lemma RethrowCapture(o: Outcome)
    ensures Rethrow(Capture(o)) == o
  {
  }

  /**
   * One invocation of the wrapped method: whether this handler held its
   * permit at the time, whether it ran inside the pause barrier, and whether
   * it ran after the handler re-set the thread's interrupt flag.
   */
  datatype Invocation = Invocation(holdsPermit: bool, insideBarrier: bool, afterInterrupt: bool)

  /**
   * The result of a handler: its outcome, the invocations of the wrapped
   * method in order, whether the waiter checkpoint ran, and whether the
   * handler re-set the interrupt flag.
   */
  datatype Completion = Completion(outcome: Outcome, invocations: seq<Invocation>, checkpointed: bool, interruptFlag: bool)

  /**
   * A handler, given whether its acquire took the non-interrupted path, the
   * outcome of the first invocation of the wrapped method and the outcome
   * of a second one: try { acquire; [checkpoint | barrier]; proceed }
   * catch (InterruptedException) { interrupt; proceed } finally { release }.
   */
  function Handle(mode: Mode, acquired: bool, first: Outcome, second: Outcome): (c: Completion)
    // The outermost acquire was interrupted: one unprotected invocation, with the interrupt flag set.
    ensures !acquired ==>
              c.outcome == first && c.invocations == [Invocation(false, false, true)]
              && c.interruptFlag && !c.checkpointed
    // Otherwise the first invocation holds the permit, and runs inside the barrier exactly on the phaser path.
    ensures acquired ==>
              |c.invocations| >= 1 && c.invocations[0] == Invocation(true, mode == PhaserMode, false)
              && (c.checkpointed <==> mode == WaiterMode)
    // A result or a non-interrupt exception of the wrapped method is passed through unchanged.
    ensures acquired && first != Threw(InterruptedException) ==>
              c.outcome == first && |c.invocations| == 1 && !c.interruptFlag
    // An InterruptedException of the wrapped method runs it again, still holding the permit.
    ensures acquired && first == Threw(InterruptedException) ==>
              c.outcome == second && |c.invocations| == 2
              && c.invocations[1] == Invocation(true, false, true) && c.interruptFlag
    ensures 1 <= |c.invocations| <= 2
  {
    var inBarrier := acquired && mode == PhaserMode;
    var tried :=
      if !acquired then Threw(InterruptedException)
      else if inBarrier then Rethrow(Capture(first))
      else first;
    var tryCalls := if acquired then [Invocation(true, inBarrier, false)] else [];
    var checkpointed := acquired && mode == WaiterMode;
    RethrowCapture(first);
    if tried == Threw(InterruptedException) then
      var retried := if acquired then second else first;
      Completion(retried, tryCalls + [Invocation(acquired, false, true)], checkpointed, true)
    else
      Completion(tried, tryCalls, checkpointed, false)
  }

  /** The three handlers differ only in the checkpoint and the barrier, never in outcome. */
  lemma HandlersAgreeOnOutcome(acquired: bool, first: Outcome, second: Outcome)
    ensures Handle(PhaserMode, acquired, first, second).outcome == Handle(DefaultMode, acquired, first, second).outcome
    ensures Handle(WaiterMode, acquired, first, second).outcome == Handle(DefaultMode, acquired, first, second).outcome
  {
  }

  // ---------------------------------------------------------------------
  // The aspect
  // ---------------------------------------------------------------------

  /** The pause barrier of one name. Its phaser rendezvous is not part of this model. */
  class PauseBarrier {
    constructor ()
    {
    }
  }

  /** The outcome `around` gives when the method carries no LimitAccess annotation. */
  const MissingAnnotation: Completion := Completion(Threw(IllegalArgumentException), [], false, false)

  class LimitAccessAspect {
    const config: LimitAccessConfig
    var semaphoreMap: map<string, ReentrantSemaphore>
    var pauseBarrierMap: map<string, PauseBarrier>

    /** Distinct names never share a semaphore. */
    ghost predicate Valid()
      reads this`semaphoreMap
    {
      forall a, b :: a in semaphoreMap && b in semaphoreMap && a != b ==> semaphoreMap[a] != semaphoreMap[b]
    }

    /** The registry's abstract value: the state of each name's semaphore. */
    function Snapshot(): map<string, SemState>
      reads this`semaphoreMap, semaphoreMap.Values
    {
      map k | k in semaphoreMap :: semaphoreMap[k].State()
    }

    /** The state of the semaphore a call with this name and data-source key will use. */
    function PendingState(name: string, currentKey: Option<string>): SemState
      reads this`semaphoreMap, semaphoreMap.Values
    {
      RetrieveSpec(Snapshot(), config, name, currentKey)[RegistryKey(name, currentKey)]
    }

    /** `init`: a semaphore per configured name, and no pause barriers. */
    constructor Init(config: LimitAccessConfig)
      ensures Valid() && this.config == config
      ensures Snapshot() == InitSpec(config)
      ensures pauseBarrierMap == map[]
    {
      var remaining := config.semaphores.Keys;
      var m: map<string, ReentrantSemaphore> := map[];
      while remaining != {}
        invariant remaining <= config.semaphores.Keys
        invariant m.Keys == config.semaphores.Keys - remaining
        invariant forall k :: k in m ==> m[k].State() == SemState(config.semaphores[k], map[])
        invariant forall a, b :: a in m && b in m && a != b ==> m[a] != m[b]
        decreases remaining
      {
        var k :| k in remaining;
        var sem := new ReentrantSemaphore(config.semaphores[k]);
        m := m[k := sem];
        remaining := remaining - {k};
      }
      this.config := config;
      semaphoreMap := m;
      pauseBarrierMap := map[];
    }

    /** retrieveSemaphore: insert-if-absent under the resolved registry key. */
    method RetrieveSemaphore(limited: LimitAccess, currentKey: Option<string>) returns (sem: ReentrantSemaphore)
      requires Valid()
      modifies this`semaphoreMap
      ensures Valid()
      ensures var k := RegistryKey(limited.semaphoreName, currentKey);
              && k in semaphoreMap && sem == semaphoreMap[k]
              && (k in old(semaphoreMap) ==> semaphoreMap == old(semaphoreMap))
              && (k !in old(semaphoreMap) ==> fresh(sem) && semaphoreMap == old(semaphoreMap)[k := sem])
      ensures Snapshot() == RetrieveSpec(old(Snapshot()), config, limited.semaphoreName, currentKey)
    {
      var key;
      var access;
      if limited.semaphoreName != DefaultSemaphoreName {
        key := limited.semaphoreName;
        if key !in config.semaphores {
          access := config.maxAccess;
        } else {
          access := config.semaphores[key];
        }
      } else {
        key := currentKey.GetOr(DefaultSemaphoreName);
        access := config.maxAccess;
      }
      if key in semaphoreMap {
        sem := semaphoreMap[key];
      } else {
        sem := new ReentrantSemaphore(access);
        semaphoreMap := semaphoreMap[key := sem];
      }
    }

    /** retrievePauseBarrier: insert-if-absent under the declared name. */
    method RetrievePauseBarrier(name: string) returns (barrier: PauseBarrier)
      modifies this`pauseBarrierMap
      ensures name in pauseBarrierMap && barrier == pauseBarrierMap[name]
      ensures name in old(pauseBarrierMap) ==> pauseBarrierMap == old(pauseBarrierMap)
      ensures name !in old(pauseBarrierMap) ==> fresh(barrier) && pauseBarrierMap == old(pauseBarrierMap)[name := barrier]
      ensures pauseBarrierMap.Keys == old(pauseBarrierMap).Keys + {name}
      ensures forall n :: n in old(pauseBarrierMap) ==> pauseBarrierMap[n] == old(pauseBarrierMap)[n]
    {
      if name in pauseBarrierMap {
        barrier := pauseBarrierMap[name];
      } else {
        barrier := new PauseBarrier();
        pauseBarrierMap := pauseBarrierMap[name := barrier];
      }
    }

    /**
     * The handlers' common skeleton on the retrieved semaphore: try { acquire;
     * [checkpoint | barrier]; proceed } catch (InterruptedException) {
     * interrupt; proceed } finally { release }.
     */
    static method Guarded(sem: ReentrantSemaphore, mode: Mode, t: ThreadId,
                          acquireInterrupted: bool, first: Outcome, second: Outcome) returns (c: Completion)
      requires CanAcquire(sem.State(), t, acquireInterrupted)
      modifies sem
      ensures c == Handle(mode, Acquires(old(sem.State()), t, acquireInterrupted), first, second)
      ensures sem.State() == old(sem.State())
    {
      var tried: Outcome;
      var calls: seq<Invocation> := [];
      var checkpointed := false;
      var acquired := sem.Acquire(t, acquireInterrupted);
      if !acquired {
        tried := Threw(InterruptedException);
      } else if mode == PhaserMode {
        var p := Capture(first);
        calls := [Invocation(true, true, false)];
        if p.Error? {
          tried := Threw(p.cause);
        } else {
          tried := Returned(p.t);
        }
      } else {
        if mode == WaiterMode {
          checkpointed := true;
        }
        calls := [Invocation(true, false, false)];
        tried := first;
      }
      var interruptFlag := false;
      if tried == Threw(InterruptedException) {
        interruptFlag := true;
        calls := calls + [Invocation(acquired, false, true)];
        tried := if acquired then second else first;
      }
      sem.Release(t);
      if acquired {
        AcquireThenRelease(old(sem.State()), t);
      }
      c := Completion(tried, calls, checkpointed, interruptFlag);
    }

    /**
     * A handler on the registry: the semaphore is retrieved under the resolved
     * key and guarded; afterwards every semaphore is in the state it had,
     * and only a newly created one was added.
     */
    method Handler(mode: Mode, t: ThreadId, limited: LimitAccess, currentKey: Option<string>,
                   acquireInterrupted: bool, first: Outcome, second: Outcome) returns (c: Completion)
      requires Valid()
      requires CanAcquire(PendingState(limited.semaphoreName, currentKey), t, acquireInterrupted)
      modifies this`semaphoreMap, semaphoreMap.Values
      ensures Valid()
      ensures c == Handle(mode, Acquires(old(PendingState(limited.semaphoreName, currentKey)), t, acquireInterrupted), first, second)
      ensures Snapshot() == RetrieveSpec(old(Snapshot()), config, limited.semaphoreName, currentKey)
    {
      ghost var s0 := PendingState(limited.semaphoreName, currentKey);
      var sem := RetrieveSemaphore(limited, currentKey);
      ghost var snap := Snapshot();
      ghost var key := RegistryKey(limited.semaphoreName, currentKey);
      assert sem.State() == s0 by {
        assert snap[key] == sem.State();
      }
      c := Guarded(sem, mode, t, acquireInterrupted, first, second);
      assert Snapshot() == snap by {
        forall k | k in semaphoreMap
          ensures semaphoreMap[k].State() == snap[k]
        {
          if k != key {
            assert semaphoreMap[k] != sem;
          }
        }
      }
    }

    /** handlePhaser: the wrapped method runs inside the pause barrier. */
    method HandlePhaser(t: ThreadId, limited: LimitAccess, currentKey: Option<string>,
                        acquireInterrupted: bool, first: Outcome, second: Outcome) returns (c: Completion)
      requires Valid()
      requires CanAcquire(PendingState(limited.semaphoreName, currentKey), t, acquireInterrupted)
      modifies this`semaphoreMap, semaphoreMap.Values
      ensures Valid()
      ensures c == Handle(PhaserMode, Acquires(old(PendingState(limited.semaphoreName, currentKey)), t, acquireInterrupted), first, second)
      ensures Snapshot() == RetrieveSpec(old(Snapshot()), config, limited.semaphoreName, currentKey)
    {
      c := Handler(PhaserMode, t, limited, currentKey, acquireInterrupted, first, second);
    }

    /** handleWaiter: the barrier checkpoint runs before the wrapped method. */
    method HandleWaiter(t: ThreadId, limited: LimitAccess, currentKey: Option<string>,
                        acquireInterrupted: bool, first: Outcome, second: Outcome) returns (c: Completion)
      requires Valid()
      requires CanAcquire(PendingState(limited.semaphoreName, currentKey), t, acquireInterrupted)
      modifies this`semaphoreMap, semaphoreMap.Values
      ensures Valid()
      ensures c == Handle(WaiterMode, Acquires(old(PendingState(limited.semaphoreName, currentKey)), t, acquireInterrupted), first, second)
      ensures Snapshot() == RetrieveSpec(old(Snapshot()), config, limited.semaphoreName, currentKey)
    {
      c := Handler(WaiterMode, t, limited, currentKey, acquireInterrupted, first, second);
    }

    /** handleDefault: the semaphore alone. */
    method HandleDefault(t: ThreadId, limited: LimitAccess, currentKey: Option<string>,
                         acquireInterrupted: bool, first: Outcome, second: Outcome) returns (c: Completion)
      requires Valid()
      requires CanAcquire(PendingState(limited.semaphoreName, currentKey), t, acquireInterrupted)
      modifies this`semaphoreMap, semaphoreMap.Values
      ensures Valid()
      ensures c == Handle(DefaultMode, Acquires(old(PendingState(limited.semaphoreName, currentKey)), t, acquireInterrupted), first, second)
      ensures Snapshot() == RetrieveSpec(old(Snapshot()), config, limited.semaphoreName, currentKey)
    {
      c := Handler(DefaultMode, t, limited, currentKey, acquireInterrupted, first, second);
    }

    /**
     * around: fail on a missing annotation; otherwise create the name's pause
     * barrier and dispatch on the annotation's intent. The semaphore state is
     * the same afterwards, except for a semaphore the call created.
     */
    method Around(t: ThreadId, annotation: Option<LimitAccess>, currentKey: Option<string>,
                  acquireInterrupted: bool, first: Outcome, second: Outcome) returns (c: Completion)
      requires Valid()
      requires annotation.Some? ==>
                 CanAcquire(PendingState(annotation.value.semaphoreName, currentKey), t, acquireInterrupted)
      modifies this`semaphoreMap, this`pauseBarrierMap, semaphoreMap.Values
      ensures Valid()
      ensures annotation.None? ==>
                c == MissingAnnotation && Snapshot() == old(Snapshot())
                && semaphoreMap == old(semaphoreMap) && pauseBarrierMap == old(pauseBarrierMap)
      ensures annotation.Some? ==>
                var a := annotation.value;
                && c == Handle(SelectMode(a), Acquires(old(PendingState(a.semaphoreName, currentKey)), t, acquireInterrupted), first, second)
                && Snapshot() == RetrieveSpec(old(Snapshot()), config, a.semaphoreName, currentKey)
                && pauseBarrierMap.Keys == old(pauseBarrierMap).Keys + {a.semaphoreName}
                && (forall n :: n in old(pauseBarrierMap) ==> pauseBarrierMap[n] == old(pauseBarrierMap)[n])
    {
      if annotation.None? {
        return MissingAnnotation;
      }
      var limited := annotation.value;
      ghost var pending := PendingState(limited.semaphoreName, currentKey);
      ghost var snap := Snapshot();
      var pauseBarrier := RetrievePauseBarrier(limited.semaphoreName);
      ghost var barriers := pauseBarrierMap;
      assert Snapshot() == snap;
      c := Dispatch(t, limited, currentKey, acquireInterrupted, first, second);
      assert pauseBarrierMap == barriers;
    }

    /** The if-chain of `around` after the pause barrier is retrieved: phaser first, then waiter, then default. */
    method Dispatch(t: ThreadId, limited: LimitAccess, currentKey: Option<string>,
                    acquireInterrupted: bool, first: Outcome, second: Outcome) returns (c: Completion)
      requires Valid()
      requires CanAcquire(PendingState(limited.semaphoreName, currentKey), t, acquireInterrupted)
      modifies this`semaphoreMap, semaphoreMap.Values
      ensures Valid()
      ensures c == Handle(SelectMode(limited), Acquires(old(PendingState(limited.semaphoreName, currentKey)), t, acquireInterrupted), first, second)
      ensures Snapshot() == RetrieveSpec(old(Snapshot()), config, limited.semaphoreName, currentKey)
    {
      if limited.isPhaser {
        c := HandlePhaser(t, limited, currentKey, acquireInterrupted, first, second);
        return;
      }
      if limited.isWaiter {
        c := HandleWaiter(t, limited, currentKey, acquireInterrupted, first, second);
        return;
      }
      c := HandleDefault(t, limited, currentKey, acquireInterrupted, first, second);
    }
  }
}
