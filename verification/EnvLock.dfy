/** access_env and release_env (gestor.c) as a transition system over any number
    of threads and any number of priority classes.

    The lock is a split binary semaphore: a thread that releases the
    environment hands the mutex itself (the baton) to one blocked thread, and
    only posts the mutex when nobody is blocked. */
module EnvLock {
  import opened Options
  import opened Counting
  import opened EnvSemaphores

  /** Where a thread is. Every constructor names the next statement to run. */
  datatype Pc =
    | Idle                  // outside access_env .. release_env
    | Enter(prio: nat)      // sem_wait(mutex), line 333
    | Check(prio: nat)      // the scan, the test and blk++, lines 334-344
    | Park(prio: nat)       // sem_post(mutex) with blk raised, line 345
    | Blocked(prio: nat)    // sem_wait(prio_sem[prio]), line 346
    | Woken(prio: nat)      // blk--, line 347
    | Admit(prio: nat)      // count++, line 349
    | Open(prio: nat)       // sem_post(mutex), line 351
    | Inside(prio: nat)     // between access_env and release_env
    | Leave(prio: nat)      // sem_wait(mutex), line 363
    | Uncount(prio: nat)    // count--, line 365
    | Wake(prio: nat)       // the wake-up scan and its post, lines 366-382

  datatype State = State(mutex: nat, count: int, blk: seq<int>, sem: seq<nat>, pc: seq<Pc>)

  /** Ways of counting threads. */
  datatype Kind =
    | Token             // threads that hold the mutex
    | Counted           // threads that env.count should count
    | Entry             // threads that were granted entry and have not given it up
    | Blk(prio: nat)    // threads that blk[prio] should count
    | Waiting(prio: nat)// threads at the semaphore of class prio

  predicate Is(k: Kind, pc: Pc) {
    match k
    case Token => pc.Check? || pc.Park? || pc.Woken? || pc.Admit? || pc.Open? || pc.Uncount? || pc.Wake?
    case Counted => pc.Open? || pc.Inside? || pc.Leave? || pc.Uncount?
    case Entry => pc.Woken? || pc.Admit? || pc.Open? || pc.Inside? || pc.Leave? || pc.Uncount? || pc.Wake?
    case Blk(p) => pc == Park(p) || pc == Blocked(p) || pc == Woken(p)
    case Waiting(p) => pc == Blocked(p)
  }

  ghost function Sel(k: Kind): Pc -> bool {
    pc => Is(k, pc)
  }

  /** Number of threads of a kind. */
  ghost function Num(s: State, k: Kind): nat {
    Count(s.pc, Sel(k))
  }

  /** init_env: mutex 1, nobody counted, nobody blocked, all threads outside. */
  ghost predicate Init(s: State) {
    && s.mutex == 1 && s.count == 0
    && |s.blk| == |s.sem| && |s.blk| >= 1
    && (forall p | 0 <= p < |s.blk| :: s.blk[p] == 0 && s.sem[p] == 0)
    && (forall t | 0 <= t < |s.pc| :: s.pc[t] == Idle)
  }

  /** Thread t can run its next statement. A sem_wait needs a positive
      semaphore; everything else is always possible. `p` is the class an idle
      thread asks for. */
  predicate Enabled(s: State, t: nat, p: nat) {
    && t < |s.pc|
    && match s.pc[t]
       case Idle => p < |s.blk|
       case Enter(_) => s.mutex > 0
       case Leave(_) => s.mutex > 0
       case Blocked(q) => q < |s.sem| && s.sem[q] > 0
       case pc => pc.prio < |s.blk| && pc.prio < |s.sem|
  }

  ghost function Fire(s: State, t: nat, p: nat): State
    requires Enabled(s, t, p) && |s.blk| == |s.sem|
  {
    match s.pc[t]
    case Idle => s.(pc := s.pc[t := Enter(p)])
    case Enter(q) => s.(mutex := s.mutex - 1, pc := s.pc[t := Check(q)])
    case Check(q) =>
      if s.count != 0 || AnyBlocked(s.blk, q)
      then s.(blk := s.blk[q := s.blk[q] + 1], pc := s.pc[t := Park(q)])
      else s.(pc := s.pc[t := Admit(q)])
    case Park(q) => s.(mutex := s.mutex + 1, pc := s.pc[t := Blocked(q)])
    case Blocked(q) => s.(sem := s.sem[q := s.sem[q] - 1], pc := s.pc[t := Woken(q)])
    case Woken(q) => s.(blk := s.blk[q := s.blk[q] - 1], pc := s.pc[t := Admit(q)])
    case Admit(q) => s.(count := s.count + 1, pc := s.pc[t := Open(q)])
    case Open(q) => s.(mutex := s.mutex + 1, pc := s.pc[t := Inside(q)])
    case Inside(q) => s.(pc := s.pc[t := Leave(q)])
    case Leave(q) => s.(mutex := s.mutex - 1, pc := s.pc[t := Uncount(q)])
    case Uncount(q) => s.(count := s.count - 1, pc := s.pc[t := Wake(q)])
    case Wake(q) =>
      match Select(s.blk, q)
      case None => s.(mutex := s.mutex + 1, pc := s.pc[t := Idle])
      case Some(n) => s.(sem := s.sem[n := s.sem[n] + 1], pc := s.pc[t := Idle])
  }

  /** The right to enter: held by one thread, or in flight in one semaphore. */
  ghost function Rights(s: State): nat {
    Num(s, Entry) + Sum(s.sem)
  }

  /** The clauses of Inv that speak of no particular class. */
  ghost predicate Totals(s: State) {
    && s.mutex + Num(s, Token) + Sum(s.sem) == 1
    && Rights(s) <= 1
    && s.count == Num(s, Counted)
  }

  ghost predicate Inv(s: State) {
    && |s.blk| == |s.sem| && |s.blk| >= 1
    && (forall t | 0 <= t < |s.pc| :: s.pc[t].Idle? || s.pc[t].prio < |s.blk|)
    && Totals(s)
    && (forall p | 0 <= p < |s.blk| :: s.blk[p] == Num(s, Blk(p)))
    && (forall p | 0 <= p < |s.sem| :: s.sem[p] <= Num(s, Waiting(p)))
    && ((exists p | 0 <= p < |s.blk| :: s.blk[p] != 0) ==> Rights(s) == 1)
  }

  lemma InitInv(s: State)
    requires Init(s)
    ensures Inv(s)
  {
    SumZero(s.sem);
    forall k ensures Num(s, k) == 0 {
      CountZero(s.pc, Sel(k));
    }
  }

  /** A thread's own contribution when its program counter changes. */
  lemma NumUpdate(s: State, t: nat, pc: Pc, k: Kind)
    requires t < |s.pc|
    ensures Count(s.pc[t := pc], Sel(k)) + (if Is(k, s.pc[t]) then 1 else 0)
         == Num(s, k) + (if Is(k, pc) then 1 else 0)
  {
    CountUpdate(s.pc, t, pc, Sel(k));
  }

  /** The holder of the mutex is the only one. */
  lemma TokenUnique(s: State, t: nat)
    requires Inv(s) && t < |s.pc| && Is(Token, s.pc[t])
    ensures s.mutex == 0 && Sum(s.sem) == 0
    ensures forall p | 0 <= p < |s.sem| :: s.sem[p] == 0
    ensures forall u | 0 <= u < |s.pc| && u != t :: !Is(Token, s.pc[u])
  {
    CountPositive(s.pc, t, Sel(Token));
    SumZero(s.sem);
    forall u | 0 <= u < |s.pc| && u != t ensures !Is(Token, s.pc[u]) {
      if Is(Token, s.pc[u]) {
        assert Sel(Token)(s.pc[t]) && Sel(Token)(s.pc[u]);
        CountUnique(s.pc, Sel(Token), t, u);
      }
    }
  }

  /** A thread at the test of line 342 finds count zero only when no thread has
      the right to enter and no class is blocked: the scan never decides alone. */
  lemma CheckDecides(s: State, t: nat)
    requires Inv(s) && t < |s.pc| && s.pc[t].Check?
    ensures s.count == 0 <==> Rights(s) == 0
    ensures s.count == 0 ==> forall p | 0 <= p < |s.blk| :: s.blk[p] == 0
    ensures (s.count != 0 || AnyBlocked(s.blk, s.pc[t].prio)) <==> s.count != 0
  {
    TokenUnique(s, t);
    CountZero(s.pc, Sel(Counted));
    CountZero(s.pc, Sel(Entry));
    forall u | 0 <= u < |s.pc| ensures Sel(Entry)(s.pc[u]) <==> Sel(Counted)(s.pc[u]) {
      assert u != t ==> !Is(Token, s.pc[u]);
    }
  }

  /** A blocked class seen by the wake-up scan has a thread at its semaphore. */
  lemma WakeFindsWaiter(s: State, t: nat, n: nat)
    requires Inv(s) && t < |s.pc| && s.pc[t].Wake? && n < |s.blk| && s.blk[n] != 0
    ensures Num(s, Waiting(n)) >= 1
  {
    TokenUnique(s, t);
    var u := CountWitness(s.pc, Sel(Blk(n)));
    assert Is(Blk(n), s.pc[u]);
    assert s.pc[u] == Blocked(n);
    CountPositive(s.pc, u, Sel(Waiting(n)));
  }

  /** What one step does to every thread count: only the stepping thread moves. */
  ghost predicate Shifted(s: State, s': State, t: nat, k: Kind)
    requires t < |s.pc| && |s'.pc| == |s.pc|
  {
    Num(s', k) == Num(s, k) - (if Is(k, s.pc[t]) then 1 else 0) + (if Is(k, s'.pc[t]) then 1 else 0)
  }

  lemma StepShifts(s: State, t: nat, p: nat)
    requires Enabled(s, t, p) && |s.blk| == |s.sem|
    ensures var s' := Fire(s, t, p);
      |s'.pc| == |s.pc| && |s'.blk| == |s.blk| && |s'.sem| == |s.sem|
      && forall k :: Shifted(s, s', t, k)
  {
    var s' := Fire(s, t, p);
    assert s'.pc == s.pc[t := s'.pc[t]];
    forall k ensures Shifted(s, s', t, k) {
      NumUpdate(s, t, s'.pc[t], k);
    }
  }

  /** The test admits a thread only when nobody else has the right to enter. */
  lemma CheckKeepsTotals(s: State, t: nat, p: nat)
    requires Inv(s) && Enabled(s, t, p) && s.pc[t].Check?
    ensures Totals(Fire(s, t, p)) && Rights(Fire(s, t, p)) == 1
  {
    var s' := Fire(s, t, p);
    StepShifts(s, t, p);
    assert Shifted(s, s', t, Token) && Shifted(s, s', t, Counted) && Shifted(s, s', t, Entry);
    CheckDecides(s, t);
  }

  /** A release passes the right on, or gives it up when nobody is blocked. */
  lemma WakeKeepsTotals(s: State, t: nat, p: nat)
    requires Inv(s) && Enabled(s, t, p) && s.pc[t].Wake?
    ensures Totals(Fire(s, t, p))
    ensures Rights(Fire(s, t, p)) == if Select(s.blk, s.pc[t].prio).None? then 0 else 1
  {
    var s' := Fire(s, t, p);
    StepShifts(s, t, p);
    assert Shifted(s, s', t, Token) && Shifted(s, s', t, Counted) && Shifted(s, s', t, Entry);
    CountPositive(s.pc, t, Sel(Entry));
    var next := Select(s.blk, s.pc[t].prio);
    if next.Some? {
      SumUpdate(s.sem, next.value, s.sem[next.value] + 1);
    }
  }

  /** Every other statement keeps the right where it is. */
  lemma OthersKeepTotals(s: State, t: nat, p: nat)
    requires Inv(s) && Enabled(s, t, p) && !s.pc[t].Wake? && !s.pc[t].Check?
    ensures Totals(Fire(s, t, p)) && Rights(Fire(s, t, p)) == Rights(s)
  {
    var s' := Fire(s, t, p);
    StepShifts(s, t, p);
    assert Shifted(s, s', t, Token) && Shifted(s, s', t, Counted) && Shifted(s, s', t, Entry);
    if s.pc[t].Blocked? {
      var q := s.pc[t].prio;
      SumUpdate(s.sem, q, s.sem[q] - 1);
    }
  }

  lemma StepKeepsTotals(s: State, t: nat, p: nat)
    requires Inv(s) && Enabled(s, t, p)
    ensures var s' := Fire(s, t, p);
      && Totals(s')
      && (s.pc[t].Wake? || s.pc[t].Check? || Rights(s') == Rights(s))
      && (s.pc[t].Wake? ==> Rights(s') == if Select(s.blk, s.pc[t].prio).None? then 0 else 1)
      && (s.pc[t].Check? ==> Rights(s') == 1)
  {
    if s.pc[t].Wake? {
      WakeKeepsTotals(s, t, p);
    } else if s.pc[t].Check? {
      CheckKeepsTotals(s, t, p);
    } else {
      OthersKeepTotals(s, t, p);
    }
  }

  /** The clauses of Inv that speak of one class c. */
  lemma StepKeepsClass(s: State, t: nat, p: nat, c: nat)
    requires Inv(s) && Enabled(s, t, p) && c < |s.blk|
    ensures var s' := Fire(s, t, p);
      && |s'.blk| == |s.blk| && |s'.sem| == |s.sem|
      && s'.blk[c] == Num(s', Blk(c))
      && s'.sem[c] <= Num(s', Waiting(c))
  {
    var s' := Fire(s, t, p);
    StepShifts(s, t, p);
    assert Shifted(s, s', t, Blk(c)) && Shifted(s, s', t, Waiting(c));
    assert s.blk[c] == Num(s, Blk(c)) && s.sem[c] <= Num(s, Waiting(c));
    if s.pc[t].Wake? {
      if n: nat :| Select(s.blk, s.pc[t].prio) == Some(n) {
        WakeFindsWaiter(s, t, n);
        TokenUnique(s, t);
      }
    }
  }

  /** Every statement of every thread keeps the invariant. */
  lemma StepInv(s: State, t: nat, p: nat)
    requires Inv(s) && Enabled(s, t, p)
    ensures Inv(Fire(s, t, p))
  {
    var s' := Fire(s, t, p);
    StepShifts(s, t, p);
    StepKeepsTotals(s, t, p);
    forall c | 0 <= c < |s.blk| ensures s'.blk[c] == Num(s', Blk(c)) && s'.sem[c] <= Num(s', Waiting(c)) {
      StepKeepsClass(s, t, p, c);
    }
    if c :| 0 <= c < |s'.blk| && s'.blk[c] != 0 {
      StepKeepsBlockedRights(s, t, p, c);
    }
  }

  /** While some class is blocked, one right to enter is out. */
  lemma StepKeepsBlockedRights(s: State, t: nat, p: nat, c: nat)
    requires Inv(s) && Enabled(s, t, p) && c < |s.blk|
    ensures |Fire(s, t, p).blk| == |s.blk|
    ensures Fire(s, t, p).blk[c] != 0 ==> Rights(Fire(s, t, p)) == 1
  {
    StepKeepsTotals(s, t, p);
    if s.pc[t].Woken? { CountPositive(s.pc, t, Sel(Entry)); }
  }
}
