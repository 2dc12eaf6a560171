/** What the environment lock guarantees over whole runs. */
module EnvLockTheorems {
  import opened Options
  import opened Counting
  import opened EnvSemaphores
  import opened EnvLock

  /** A schedule names, step by step, the thread that runs and the class it asks
      for if it is idle. */
  type Schedule = seq<(nat, nat)>

  /** Every step of the schedule can be taken from s. */
  ghost predicate Feasible(s: State, sched: Schedule)
    decreases |sched|
  {
    |s.blk| == |s.sem| &&
    (sched != [] ==>
       && Enabled(s, sched[0].0, sched[0].1)
       && Feasible(Fire(s, sched[0].0, sched[0].1), sched[1..]))
  }

  ghost function Exec(s: State, sched: Schedule): (s': State)
    requires Feasible(s, sched)
    ensures |s'.blk| == |s'.sem|
    decreases |sched|
  {
    if sched == [] then s else Exec(Fire(s, sched[0].0, sched[0].1), sched[1..])
  }

  lemma {:induction false} RunInv(s: State, sched: Schedule)
    requires Inv(s) && Feasible(s, sched)
    ensures Inv(Exec(s, sched))
    decreases |sched|
  {
    if sched != [] {
      StepInv(s, sched[0].0, sched[0].1);
      RunInv(Fire(s, sched[0].0, sched[0].1), sched[1..]);
    }
  }

  /** Mutual exclusion and exact bookkeeping in every reachable state. */
  lemma LockSafety(s0: State, sched: Schedule)
    requires Init(s0) && Feasible(s0, sched)
    ensures var s := Exec(s0, sched);
      // at most one thread between access_env and release_env
      && (forall t, u | 0 <= t < |s.pc| && 0 <= u < |s.pc| && s.pc[t].Inside? && s.pc[u].Inside? :: t == u)
      // count is the number of admitted threads, and at most one
      && s.count == Num(s, Counted) && 0 <= s.count <= 1
      // one token: in the mutex, with a thread, or in one private semaphore
      && s.mutex + Num(s, Token) + Sum(s.sem) == 1
      // blk[p] counts the blocked threads of class p; a posted semaphore has a waiter
      && |s.blk| == |s.sem|
      && (forall p | 0 <= p < |s.blk| :: s.blk[p] == Num(s, Blk(p)))
      && (forall p | 0 <= p < |s.sem| && s.sem[p] > 0 :: Num(s, Waiting(p)) > 0)
  {
    InitInv(s0);
    RunInv(s0, sched);
    var s := Exec(s0, sched);
    CountedBound(s);
    forall t, u | 0 <= t < |s.pc| && 0 <= u < |s.pc| && s.pc[t].Inside? && s.pc[u].Inside? ensures t == u {
      assert Sel(Entry)(s.pc[t]) && Sel(Entry)(s.pc[u]);
      CountUnique(s.pc, Sel(Entry), t, u);
    }
  }

  /** Counted threads hold the right to enter, so there is at most one of them. */
  lemma CountedBound(s: State)
    requires Inv(s)
    ensures Num(s, Counted) <= Num(s, Entry) <= 1
  {
    if Num(s, Counted) > 0 {
      var t := CountWitness(s.pc, Sel(Counted));
      assert Is(Counted, s.pc[t]);
      CountPositive(s.pc, t, Sel(Entry));
      if Num(s, Counted) >= 2 {
        CountedIsEntry(s.pc);
      }
    }
  }

  lemma {:induction false} CountedIsEntry(pc: seq<Pc>)
    ensures Count(pc, Sel(Counted)) <= Count(pc, Sel(Entry))
  {
    if pc != [] { CountedIsEntry(pc[1..]); }
  }

  /** With the mutex free and nobody counted, nobody is blocked: a newcomer that
      finds count zero never has to look at the scan of lines 337-340. */
  lemma FreeMeansNobodyBlocked(s0: State, sched: Schedule)
    requires Init(s0) && Feasible(s0, sched)
    ensures var s := Exec(s0, sched);
      s.mutex == 1 && s.count == 0 ==> forall p | 0 <= p < |s.blk| :: s.blk[p] == 0
  {
    InitInv(s0);
    RunInv(s0, sched);
    var s := Exec(s0, sched);
    if s.mutex == 1 && s.count == 0 {
      CountZero(s.pc, Sel(Token));
      CountZero(s.pc, Sel(Counted));
      forall t | 0 <= t < |s.pc| ensures !Sel(Entry)(s.pc[t]) {
        assert !Sel(Token)(s.pc[t]) && !Sel(Counted)(s.pc[t]);
      }
      CountZero(s.pc, Sel(Entry));
    }
  }

  /** The test of line 342 is decided by count alone in every reachable state. */
  lemma ScanNeverDecidesAlone(s0: State, sched: Schedule, t: nat)
    requires Init(s0) && Feasible(s0, sched)
    requires t < |Exec(s0, sched).pc| && Exec(s0, sched).pc[t].Check?
    ensures var s := Exec(s0, sched);
      (s.count != 0 || AnyBlocked(s.blk, s.pc[t].prio)) <==> s.count != 0
  {
    InitInv(s0);
    RunInv(s0, sched);
    CheckDecides(Exec(s0, sched), t);
  }

  /** While a thread holds the mutex, no other thread can change the counters it
      is looking at. This is what lets a scan over blk be one step. */
  lemma TokenSectionStable(s: State, t: nat, u: nat, p: nat)
    requires Inv(s) && t < |s.pc| && Is(Token, s.pc[t])
    requires u != t && Enabled(s, u, p)
    ensures var s' := Fire(s, u, p);
      s'.count == s.count && s'.blk == s.blk && s'.sem == s.sem && s'.mutex == s.mutex
      && |s'.pc| == |s.pc| && s'.pc[t] == s.pc[t]
  {
    TokenUnique(s, t);
  }

  /** No deadlock: if some thread is not idle, some thread that is not idle can
      take its next step. */
  lemma Progress(s: State, t: nat) returns (u: nat)
    requires Inv(s) && t < |s.pc| && !s.pc[t].Idle?
    ensures u < |s.pc| && !s.pc[u].Idle? && Enabled(s, u, 0)
  {
    if Num(s, Token) > 0 {
      u := CountWitness(s.pc, Sel(Token));
      assert Is(Token, s.pc[u]);
    } else if Sum(s.sem) > 0 {
      SumZero(s.sem);
      var p :| 0 <= p < |s.sem| && s.sem[p] != 0;
      u := CountWitness(s.pc, Sel(Waiting(p)));
      assert Is(Waiting(p), s.pc[u]);
    } else {
      CountZero(s.pc, Sel(Token));
      assert !Sel(Token)(s.pc[t]);
      if s.pc[t].Blocked? {
        var q := s.pc[t].prio;
        CountPositive(s.pc, t, Sel(Blk(q)));
        assert s.blk[q] != 0;
        u := CountWitness(s.pc, Sel(Entry));
        assert Is(Entry, s.pc[u]) && !Sel(Token)(s.pc[u]);
      } else {
        u := t;
      }
    }
  }

  /** Progress in every reachable state. */
  lemma NoDeadlock(s0: State, sched: Schedule)
    requires Init(s0) && Feasible(s0, sched)
    ensures var s := Exec(s0, sched);
      (exists t :: 0 <= t < |s.pc| && !s.pc[t].Idle?) ==>
      exists u: nat :: u < |s.pc| && !s.pc[u].Idle? && Enabled(s, u, 0)
  {
    InitInv(s0);
    RunInv(s0, sched);
    var s := Exec(s0, sched);
    if t :| 0 <= t < |s.pc| && !s.pc[t].Idle? {
      var u := Progress(s, t);
    }
  }

  // ----- bounded bypass -----

  /** Class w has a thread that is blocked and not yet handed the baton. */
  ghost predicate Waits(s: State, w: nat) {
    w < |s.sem| && Num(s, Waiting(w)) > s.sem[w]
  }

  /** The right to enter belongs to class g. */
  ghost predicate OwnedBy(s: State, g: nat) {
    || (exists t :: 0 <= t < |s.pc| && Is(Entry, s.pc[t]) && s.pc[t].prio == g)
    || (g < |s.sem| && s.sem[g] > 0)
  }

  /** Step t of s is a release, that is, the wake-up scan of release_env. */
  predicate IsRelease(s: State, t: nat) {
    t < |s.pc| && s.pc[t].Wake?
  }

  /** Step t of s is a release that hands the baton to class w. */
  ghost predicate Grants(s: State, t: nat, w: nat) {
    IsRelease(s, t) && s.pc[t].prio < |s.blk| && Select(s.blk, s.pc[t].prio) == Some(w)
  }

  ghost function Releases(s: State, sched: Schedule): nat
    requires Feasible(s, sched)
    decreases |sched|
  {
    if sched == [] then 0 else
      (if IsRelease(s, sched[0].0) then 1 else 0) + Releases(Fire(s, sched[0].0, sched[0].1), sched[1..])
  }

  ghost predicate EverGrants(s: State, sched: Schedule, w: nat)
    requires Feasible(s, sched)
    decreases |sched|
  {
    sched != [] &&
    (Grants(s, sched[0].0, w) || EverGrants(Fire(s, sched[0].0, sched[0].1), sched[1..], w))
  }

  lemma WaitsMeansBlocked(s: State, w: nat)
    requires Inv(s) && Waits(s, w)
    ensures s.blk[w] != 0 && Rights(s) == 1
  {
    var u := CountWitness(s.pc, Sel(Waiting(w)));
    assert Is(Waiting(w), s.pc[u]);
    CountPositive(s.pc, u, Sel(Blk(w)));
  }

  /** Newcomers cannot overtake: while a class waits, a thread that reaches the
      test is parked, whatever its class. */
  lemma NoBarging(s: State, t: nat, p: nat, w: nat)
    requires Inv(s) && Waits(s, w) && t < |s.pc| && s.pc[t].Check? && Enabled(s, t, p)
    ensures Fire(s, t, p).pc[t].Park?
  {
    WaitsMeansBlocked(s, w);
    CheckDecides(s, t);
  }

  /** A waiting class stays waiting until a release grants it. */
  lemma WaitsPersists(s: State, t: nat, p: nat, w: nat)
    requires Inv(s) && Waits(s, w) && Enabled(s, t, p) && !Grants(s, t, w)
    ensures Waits(Fire(s, t, p), w)
  {
    StepShifts(s, t, p);
    assert Shifted(s, Fire(s, t, p), t, Waiting(w));
  }

  lemma OwnerExists(s: State) returns (g: nat)
    requires Inv(s) && Rights(s) == 1
    ensures g < |s.blk| && OwnedBy(s, g)
  {
    if Num(s, Entry) > 0 {
      var t := CountWitness(s.pc, Sel(Entry));
      assert Is(Entry, s.pc[t]);
      g := s.pc[t].prio;
    } else {
      SumZero(s.sem);
      g :| 0 <= g < |s.sem| && s.sem[g] != 0;
    }
  }

  /** Only the wake-up scan moves the right to enter to another class. */
  lemma OwnerPersists(s: State, t: nat, p: nat, g: nat, w: nat)
    requires Inv(s) && Waits(s, w) && OwnedBy(s, g) && Enabled(s, t, p) && !IsRelease(s, t)
    ensures OwnedBy(Fire(s, t, p), g)
  {
    var s' := Fire(s, t, p);
    WaitsMeansBlocked(s, w);
    if u :| 0 <= u < |s.pc| && Is(Entry, s.pc[u]) && s.pc[u].prio == g {
      assert Is(Entry, s'.pc[u]) && s'.pc[u].prio == g;
    } else if s.pc[t] == Blocked(g) {
      assert Is(Entry, s'.pc[t]) && s'.pc[t].prio == g;
    } else {
      assert s'.sem[g] > 0;
    }
  }

  /** A release by class g hands the right to a class strictly nearer to any
      waiting class w than g was, or to w itself. */
  lemma ReleaseAdvances(s: State, t: nat, p: nat, g: nat, w: nat) returns (n: nat)
    requires Inv(s) && Waits(s, w) && g < |s.blk| && OwnedBy(s, g) && Enabled(s, t, p) && IsRelease(s, t)
    ensures s.pc[t].prio == g
    ensures n < |s.blk| && |Fire(s, t, p).blk| == |s.blk| && OwnedBy(Fire(s, t, p), n)
    ensures Grants(s, t, n)
    ensures n != w ==> Dist(|s.blk|, n, w) < Dist(|s.blk|, g, w)
  {
    WaitsMeansBlocked(s, w);
    OwnerUnique(s, t, g);
    n := Select(s.blk, g).value;
    assert Fire(s, t, p).sem[n] > 0;
    if n != w {
      DistInjective(|s.blk|, g, n, w);
      DistSplit(|s.blk|, g, n, w);
    }
  }

  /** At a release, the owner of the right is the releasing thread. */
  lemma OwnerUnique(s: State, t: nat, g: nat)
    requires Inv(s) && IsRelease(s, t) && OwnedBy(s, g)
    ensures s.pc[t].prio == g
  {
    TokenUnique(s, t);
    if u :| 0 <= u < |s.pc| && Is(Entry, s.pc[u]) && s.pc[u].prio == g {
      assert Sel(Entry)(s.pc[t]) && Sel(Entry)(s.pc[u]);
      CountUnique(s.pc, Sel(Entry), t, u);
    }
  }

  /** The releases of a run that never grants w are fewer than the scan distance
      from the class that owns the lock to w. */
  lemma {:induction false} BypassMeasure(s: State, sched: Schedule, g: nat, w: nat)
    requires Inv(s) && Feasible(s, sched) && Waits(s, w) && g < |s.blk| && OwnedBy(s, g)
    requires !EverGrants(s, sched, w)
    ensures Releases(s, sched) < Dist(|s.blk|, g, w)
    decreases |sched|
  {
    if sched != [] {
      var (t, p) := sched[0];
      var s' := Fire(s, t, p);
      StepInv(s, t, p);
      StepShifts(s, t, p);
      WaitsPersists(s, t, p, w);
      if IsRelease(s, t) {
        var n := ReleaseAdvances(s, t, p, g, w);
        BypassMeasure(s', sched[1..], n, w);
      } else {
        OwnerPersists(s, t, p, g, w);
        BypassMeasure(s', sched[1..], g, w);
      }
    }
  }

  /** Bounded bypass: once a class has a blocked thread, among the next
      |blk| (ENV_PRIOS) releases one grants entry to that class. */
  lemma BoundedBypass(s0: State, past: Schedule, future: Schedule, w: nat)
    requires Init(s0) && Feasible(s0, past)
    requires Waits(Exec(s0, past), w)
    requires Feasible(Exec(s0, past), future)
    requires Releases(Exec(s0, past), future) >= |s0.blk|
    ensures EverGrants(Exec(s0, past), future, w)
  {
    InitInv(s0);
    RunInv(s0, past);
    RunClasses(s0, past);
    var s := Exec(s0, past);
    WaitsMeansBlocked(s, w);
    var g := OwnerExists(s);
    if !EverGrants(s, future, w) {
      BypassMeasure(s, future, g, w);
    }
  }

  lemma {:induction false} RunClasses(s: State, sched: Schedule)
    requires Feasible(s, sched)
    ensures |Exec(s, sched).blk| == |s.blk|
    decreases |sched|
  {
    if sched != [] {
      StepShifts(s, sched[0].0, sched[0].1);
      RunClasses(Fire(s, sched[0].0, sched[0].1), sched[1..]);
    }
  }

  // ----- the lock lets threads in -----

  /** n steps of thread t, which asks for class p if it is idle. */
  function Steps(t: nat, p: nat, n: nat): Schedule {
    seq(n, _ => (t, p))
  }

  lemma OneStep(s: State, t: nat, p: nat, n: nat)
    requires |s.blk| == |s.sem| && Enabled(s, t, p) && Feasible(Fire(s, t, p), Steps(t, p, n))
    ensures Feasible(s, Steps(t, p, n + 1))
    ensures Exec(s, Steps(t, p, n + 1)) == Exec(Fire(s, t, p), Steps(t, p, n))
  {
    assert Steps(t, p, n + 1)[1..] == Steps(t, p, n);
  }

  lemma NoSteps(s: State, t: nat, p: nat)
    requires |s.blk| == |s.sem|
    ensures Feasible(s, Steps(t, p, 0)) && Exec(s, Steps(t, p, 0)) == s
  {
  }

  /** An admitted thread reaches its section in two steps. */
  lemma AdmitEnters(s: State, t: nat, p: nat, q: nat)
    requires |s.blk| == |s.sem| && t < |s.pc| && s.pc[t] == Admit(q) && q < |s.blk|
    ensures Feasible(s, Steps(t, p, 2))
    ensures Exec(s, Steps(t, p, 2))
         == s.(count := s.count + 1, mutex := s.mutex + 1, pc := s.pc[t := Inside(q)])
  {
    var s1 := Fire(s, t, p);
    var s2 := Fire(s1, t, p);
    NoSteps(s2, t, p);
    OneStep(s1, t, p, 0);
    OneStep(s, t, p, 1);
    assert s.pc[t := Open(q)][t := Inside(q)] == s.pc[t := Inside(q)];
  }

  /** With the mutex free and nobody counted, five steps of an idle thread take it
      between access_env and release_env. */
  lemma UncontendedEntry(s0: State, sched: Schedule, t: nat, p: nat)
    requires Init(s0) && Feasible(s0, sched)
    requires var s := Exec(s0, sched);
      s.mutex == 1 && s.count == 0 && t < |s.pc| && s.pc[t].Idle? && p < |s.blk|
    ensures var s := Exec(s0, sched);
      && Feasible(s, Steps(t, p, 5))
      && Exec(s, Steps(t, p, 5)) == s.(count := 1, pc := s.pc[t := Inside(p)])
  {
    InitInv(s0);
    RunInv(s0, sched);
    FreeMeansNobodyBlocked(s0, sched);
    var s := Exec(s0, sched);
    var s1 := Fire(s, t, p);
    var s2 := Fire(s1, t, p);
    var s3 := Fire(s2, t, p);
    assert s3.pc[t] == Admit(p);
    AdmitEnters(s3, t, p, p);
    OneStep(s2, t, p, 2);
    OneStep(s1, t, p, 3);
    OneStep(s, t, p, 4);
    assert s3.pc[t := Inside(p)] == s.pc[t := Inside(p)];
  }

  /** A blocked thread whose semaphore is up reaches its section in four steps. */
  lemma WokenEnters(s: State, u: nat, n: nat)
    requires |s.blk| == |s.sem| && u < |s.pc| && s.pc[u] == Blocked(n) && n < |s.sem| && s.sem[n] > 0
    ensures Feasible(s, Steps(u, 0, 4))
    ensures Exec(s, Steps(u, 0, 4)).pc == s.pc[u := Inside(n)]
    ensures Exec(s, Steps(u, 0, 4)).mutex == s.mutex + 1 && Exec(s, Steps(u, 0, 4)).count == s.count + 1
  {
    var s1 := Fire(s, u, 0);
    var s2 := Fire(s1, u, 0);
    assert s2.pc == s.pc[u := Admit(n)];
    AdmitEnters(s2, u, 0, n);
    OneStep(s1, u, 0, 2);
    OneStep(s, u, 0, 3);
  }

  /** A release with a class blocked lets in a thread of the first blocked class after
      the releasing one: any of its blocked threads can go on to its section. */
  lemma BatonArrives(s0: State, sched: Schedule, t: nat, n: nat, u: nat)
    requires Init(s0) && Feasible(s0, sched)
    requires var s := Exec(s0, sched);
      && t < |s.pc| && s.pc[t].Wake? && s.pc[t].prio < |s.blk| && FirstBlockedAfter(s.blk, s.pc[t].prio, n)
      && u < |s.pc| && s.pc[u] == Blocked(n)
    ensures var s := Exec(s0, sched);
      && Enabled(s, t, 0) && |Fire(s, t, 0).blk| == |Fire(s, t, 0).sem| && Feasible(Fire(s, t, 0), Steps(u, 0, 4))
      && Exec(Fire(s, t, 0), Steps(u, 0, 4)).pc == s.pc[t := Idle][u := Inside(n)]
      && Exec(Fire(s, t, 0), Steps(u, 0, 4)).mutex == 1
  {
    InitInv(s0);
    RunInv(s0, sched);
    var s := Exec(s0, sched);
    SelectIsFirst(s.blk, s.pc[t].prio, n);
    TokenUnique(s, t);
    var s1 := Fire(s, t, 0);
    assert s1.mutex == 0 && s1.pc == s.pc[t := Idle] && s1.sem[n] > 0;
    WokenEnters(s1, u, n);
  }

  /** A release with no class blocked frees the mutex. */
  lemma ReleaseFrees(s0: State, sched: Schedule, t: nat)
    requires Init(s0) && Feasible(s0, sched)
    requires var s := Exec(s0, sched);
      t < |s.pc| && s.pc[t].Wake? && forall p | 0 <= p < |s.blk| :: s.blk[p] == 0
    ensures var s := Exec(s0, sched);
      Enabled(s, t, 0) && Fire(s, t, 0) == s.(mutex := 1, pc := s.pc[t := Idle])
  {
    InitInv(s0);
    RunInv(s0, sched);
    var s := Exec(s0, sched);
    TokenUnique(s, t);
    SelectsUnique(s.blk, s.pc[t].prio, None, Select(s.blk, s.pc[t].prio));
  }

  lemma TestParks(s: State, t: nat, p: nat)
    requires |s.blk| == |s.sem| && t < |s.pc| && s.pc[t] == Check(p) && p < |s.blk| && s.count != 0
    ensures Enabled(s, t, p) && Fire(s, t, p) == s.(blk := s.blk[p := s.blk[p] + 1], pc := s.pc[t := Park(p)])
  {
  }

  lemma ParkBlocks(s: State, t: nat, p: nat)
    requires |s.blk| == |s.sem| && t < |s.pc| && s.pc[t] == Park(p) && p < |s.blk|
    ensures Feasible(s, Steps(t, p, 1))
    ensures Exec(s, Steps(t, p, 1)) == s.(mutex := s.mutex + 1, pc := s.pc[t := Blocked(p)])
  {
    NoSteps(Fire(s, t, p), t, p);
    OneStep(s, t, p, 0);
  }

  /** A thread whose test finds somebody counted blocks, and gives the mutex back. */
  lemma TestBlocks(s: State, t: nat, p: nat)
    requires |s.blk| == |s.sem| && t < |s.pc| && s.pc[t] == Check(p) && p < |s.blk| && s.count != 0
    ensures Feasible(s, Steps(t, p, 2))
    ensures Exec(s, Steps(t, p, 2))
         == s.(blk := s.blk[p := s.blk[p] + 1], mutex := s.mutex + 1, pc := s.pc[t := Blocked(p)])
  {
    TestParks(s, t, p);
    ParkBlocks(Fire(s, t, p), t, p);
    OneStep(s, t, p, 1);
    assert s.pc[t := Park(p)][t := Blocked(p)] == s.pc[t := Blocked(p)];
  }

  /** While a thread is inside, four steps of an idle thread block it. */
  lemma ContendedEntryBlocks(s0: State, sched: Schedule, t: nat, p: nat)
    requires Init(s0) && Feasible(s0, sched)
    requires var s := Exec(s0, sched);
      s.mutex == 1 && s.count != 0 && t < |s.pc| && s.pc[t].Idle? && p < |s.blk|
    ensures var s := Exec(s0, sched);
      && Feasible(s, Steps(t, p, 4))
      && Exec(s, Steps(t, p, 4)) == s.(blk := s.blk[p := s.blk[p] + 1], pc := s.pc[t := Blocked(p)])
  {
    var s := Exec(s0, sched);
    var s1 := Fire(s, t, p);
    var s2 := Fire(s1, t, p);
    assert s2 == s.(mutex := 0, pc := s.pc[t := Check(p)]);
    TestBlocks(s2, t, p);
    OneStep(s1, t, p, 2);
    OneStep(s, t, p, 3);
    assert s2.pc[t := Blocked(p)] == s.pc[t := Blocked(p)];
  }

  /** With the mutex free, three steps take a thread that is inside to the wake-up scan
      of its release, with nobody counted and the counters as they were. */
  lemma LeavingReachesWake(s0: State, sched: Schedule, t: nat)
    requires Init(s0) && Feasible(s0, sched)
    requires var s := Exec(s0, sched); s.mutex == 1 && t < |s.pc| && s.pc[t].Inside?
    ensures var s := Exec(s0, sched);
      && Feasible(s, Steps(t, 0, 3))
      && Exec(s, Steps(t, 0, 3)) == s.(mutex := 0, count := 0, pc := s.pc[t := Wake(s.pc[t].prio)])
  {
    InitInv(s0);
    RunInv(s0, sched);
    LockSafety(s0, sched);
    var s := Exec(s0, sched);
    CountPositive(s.pc, t, Sel(Counted));
    LeaveSteps(s, t, s.pc[t].prio);
  }

  lemma LeaveSteps(s: State, t: nat, q: nat)
    requires |s.blk| == |s.sem| && t < |s.pc| && s.pc[t] == Inside(q) && q < |s.blk| && s.mutex == 1
    ensures Feasible(s, Steps(t, 0, 3))
    ensures Exec(s, Steps(t, 0, 3)) == s.(mutex := 0, count := s.count - 1, pc := s.pc[t := Wake(q)])
  {
    var s1 := Fire(s, t, 0);
    var s2 := Fire(s1, t, 0);
    var s3 := Fire(s2, t, 0);
    assert s3.pc == s.pc[t := Wake(q)];
    NoSteps(s3, t, 0);
    OneStep(s2, t, 0, 0);
    OneStep(s1, t, 0, 1);
    OneStep(s, t, 0, 2);
  }
}
