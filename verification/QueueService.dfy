/** What the index queue does for its clients: accepted launches, released indices and
    requests arrive. */
module QueueService {
  import opened Counting
  import opened IndexQueue
  import opened QueueProtocol
  import opened QueueRefinement
  import opened QueueTheorems

  /** n steps of thread t. */
  function Steps(t: nat, n: nat): Schedule {
    seq(n, _ => (t, Launch))
  }

  lemma OneStep(m: Memory, t: nat, n: nat)
    requires Enabled(m, t, Launch) && Feasible(FireIn(m, t, Launch), Steps(t, n))
    ensures Feasible(m, Steps(t, n + 1))
    ensures Exec(m, Steps(t, n + 1)) == Exec(FireIn(m, t, Launch), Steps(t, n))
  {
    assert Steps(t, n + 1)[1..] == Steps(t, n);
  }

  lemma NoSteps(m: Memory, t: nat)
    ensures Feasible(m, Steps(t, 0)) && Exec(m, Steps(t, 0)) == m
  {
  }

  /** The index at the front of the list of a side. */
  function Front(m: Memory, side: Side): int {
    if side.Writer? then m.q.free else m.q.head
  }

  lemma PopStep(m: Memory, t: nat, side: Side)
    requires t < |m.pc| && m.pc[t] == Pop(side) && m.q.InArray(Front(m, side))
    ensures var m1 := FireIn(m, t, Launch);
      && m1.pc == m.pc[t := Open(Front(m, side))] && m1.mutex == m.mutex && m1.accepted == m.accepted
      && m1.delivered == m.delivered + if side.Reader? then 1 else 0
  {
  }

  /** A thread that is about to pop gets the index at the front of its list. */
  lemma PopsFront(m: Memory, t: nat, side: Side)
    requires t < |m.pc| && m.pc[t] == Pop(side) && m.q.InArray(Front(m, side))
    ensures Feasible(m, Steps(t, 2))
    ensures Exec(m, Steps(t, 2)).pc == m.pc[t := Using(Front(m, side))]
    ensures Exec(m, Steps(t, 2)).delivered == m.delivered + if side.Reader? then 1 else 0
    ensures Exec(m, Steps(t, 2)).accepted == m.accepted && Exec(m, Steps(t, 2)).mutex == m.mutex + 1
  {
    PopStep(m, t, side);
    var m1 := FireIn(m, t, Launch);
    var m2 := FireIn(m1, t, Launch);
    NoSteps(m2, t);
    OneStep(m1, t, 0);
    OneStep(m, t, 1);
  }

  lemma WakeSteps(m: Memory, t: nat, side: Side)
    requires t < |m.pc| && m.pc[t] == Blocked(side) && m.Sem(side) > 0
    ensures var m1 := FireIn(m, t, Launch);
      && Enabled(m1, t, Launch)
      && var m2 := FireIn(m1, t, Launch);
         && m2.q == m.q && m2.pc == m.pc[t := Pop(side)] && m2.mutex == m.mutex
         && m2.accepted == m.accepted && m2.delivered == m.delivered
  {
  }

  /** A blocked thread whose semaphore is up gets the index at the front of its list. */
  lemma WokenPops(m: Memory, t: nat, side: Side)
    requires t < |m.pc| && m.pc[t] == Blocked(side) && m.Sem(side) > 0 && m.q.InArray(Front(m, side))
    ensures Feasible(m, Steps(t, 4))
    ensures Exec(m, Steps(t, 4)).pc == m.pc[t := Using(Front(m, side))]
    ensures Exec(m, Steps(t, 4)).delivered == m.delivered + if side.Reader? then 1 else 0
    ensures Exec(m, Steps(t, 4)).accepted == m.accepted && Exec(m, Steps(t, 4)).mutex == m.mutex + 1
  {
    WakeSteps(m, t, side);
    var m1 := FireIn(m, t, Launch);
    PopsFront(FireIn(m1, t, Launch), t, side);
    OneStep(m1, t, 2);
    OneStep(m, t, 3);
  }

  /** A launch request is accepted exactly when an index is free and a reader is
      blocked; otherwise it only gives the mutex back. */
  lemma LaunchAcceptedIff(m0: Memory, n: nat, sched: Schedule, t: nat, c: Choice)
    requires InitMemory(m0, n) && Feasible(m0, sched)
    requires var m := Exec(m0, sched); t < |m.pc| && m.pc[t] == Decide(Produce)
    ensures var m := Exec(m0, sched);
      && Enabled(m, t, c)
      && if m.q.free != NONE && m.readBlk > 0
         then FireIn(m, t, c).accepted == m.accepted + 1 && FireIn(m, t, c).q.head == m.q.free
         else FireIn(m, t, c) == m.(mutex := 1, pc := m.pc[t := Idle])
  {
    var q := ReachableStands(m0, n, sched);
    var m := Exec(m0, sched);
    TokenUnique(With(m, q), t);
    StepDoesNotAbortIn(m, n, q, t, c);
    QuietAtDecision(m, n, q, t);
    assert With(m, q).Blk(Reader) == Num(With(m, q), BlkOf(Reader));
  }

  /** Whoever is at its test finds nothing pending, and no writer blocked if an index
      is free. */
  lemma QuietAtDecision(m: Memory, n: nat, q: Lists, t: nat)
    requires StandsFor(m, n, q) && t < |m.pc| && m.pc[t].Decide?
    ensures m.q.head == NONE && (m.q.free != NONE ==> m.writeBlk == 0 && m.q.InArray(m.q.free))
    ensures m.mutex == 0 && m.readSem == 0 && m.writeSem == 0
  {
    NoneMeansEmpty(m.q, q);
    assert TokenSees(With(m, q), With(m, q).pc[t]);
    assert With(m, q).Blk(Writer) == Num(With(m, q), BlkOf(Writer));
    TokenUnique(With(m, q), t);
  }

  lemma BlockedRaisesBlk(m: Memory, n: nat, q: Lists, t: nat, side: Side)
    requires StandsFor(m, n, q) && t < |m.pc| && m.pc[t] == Blocked(side)
    ensures m.Blk(side) > 0
  {
    assert With(m, q).Blk(side) == Num(With(m, q), BlkOf(side));
    CountPositive(With(m, q).pc, t, Sel(BlkOf(side)));
  }

  /** An accepted launch arrives: a producer that finds an index free and a reader
      blocked wakes a reader, and whichever blocked reader goes on gets that index. */
  lemma AcceptedLaunchArrives(m0: Memory, n: nat, sched: Schedule, t: nat, r: nat)
    requires InitMemory(m0, n) && Feasible(m0, sched)
    requires var m := Exec(m0, sched);
      && t < |m.pc| && m.pc[t] == Decide(Produce) && m.q.free != NONE
      && r < |m.pc| && m.pc[r] == Blocked(Reader)
    ensures var m := Exec(m0, sched);
      && Enabled(m, t, Launch) && Feasible(FireIn(m, t, Launch), Steps(r, 4))
      && var m' := Exec(FireIn(m, t, Launch), Steps(r, 4));
         && m'.pc == m.pc[t := Idle][r := Using(m.q.free)] && m'.mutex == 1
         && m'.accepted == m.accepted + 1 && m'.delivered == m.delivered + 1
  {
    var q := ReachableStands(m0, n, sched);
    var m := Exec(m0, sched);
    QuietAtDecision(m, n, q, t);
    BlockedRaisesBlk(m, n, q, r, Reader);
    LaunchAcceptedIff(m0, n, sched, t, Launch);
    var m1 := FireIn(m, t, Launch);
    assert m1.readSem == 1 && m1.mutex == 0 && m1.pc == m.pc[t := Idle];
    StepRefines(m, n, q, t, Launch);
    assert m1.q.InArray(m1.q.head);
    WokenPops(m1, r, Reader);
  }

  /** A request for an index is served at once while one is free: it gets the index that
      freeIndex names. */
  lemma FreeIndexGranted(m0: Memory, n: nat, sched: Schedule, t: nat)
    requires InitMemory(m0, n) && Feasible(m0, sched)
    requires var m := Exec(m0, sched);
      t < |m.pc| && m.pc[t] == Decide(Take(Writer)) && m.q.free != NONE
    ensures var m := Exec(m0, sched);
      && Feasible(m, Steps(t, 3))
      && Exec(m, Steps(t, 3)).pc == m.pc[t := Using(m.q.free)] && Exec(m, Steps(t, 3)).mutex == 1
  {
    var q := ReachableStands(m0, n, sched);
    var m := Exec(m0, sched);
    QuietAtDecision(m, n, q, t);
    var m1 := FireIn(m, t, Launch);
    assert m1 == m.(pc := m.pc[t := Pop(Writer)]);
    PopsFront(m1, t, Writer);
    OneStep(m, t, 2);
  }

  /** A released index arrives: with a writer blocked, whichever blocked writer goes on
      gets the index that was released. */
  lemma ReleasedIndexArrives(m0: Memory, n: nat, sched: Schedule, t: nat, i: int, u: nat)
    requires InitMemory(m0, n) && Feasible(m0, sched)
    requires var m := Exec(m0, sched);
      t < |m.pc| && m.pc[t] == Decide(Release(i)) && u < |m.pc| && m.pc[u] == Blocked(Writer)
    ensures var m := Exec(m0, sched);
      && Enabled(m, t, Launch) && Feasible(FireIn(m, t, Launch), Steps(u, 4))
      && var m' := Exec(FireIn(m, t, Launch), Steps(u, 4));
         m'.pc == m.pc[t := Idle][u := Using(i)] && m'.mutex == 1
  {
    var q := ReachableStands(m0, n, sched);
    var m := Exec(m0, sched);
    QuietAtDecision(m, n, q, t);
    BlockedRaisesBlk(m, n, q, u, Writer);
    HeldElsewhere(With(m, q), n, i, t);
    var m1 := FireIn(m, t, Launch);
    assert m1.writeSem == 1 && m1.mutex == 0 && m1.pc == m.pc[t := Idle] && m1.q.free == i;
    WokenPops(m1, u, Writer);
  }

  // ----- whole calls -----

  /** The first two steps of a call: into the critical section. */
  lemma EntersCall(m: Memory, t: nat, c: Choice, role: Role)
    requires t < |m.pc| && m.mutex == 1
    requires if m.pc[t].Idle?
      then role == (if c.Launch? then Produce else if c.Request? then Take(Writer) else Take(Reader)) && !c.HandTo?
      else m.pc[t].Using? && role == Release(m.pc[t].idx) && !c.HandTo?
    ensures Enabled(m, t, c) && Enabled(FireIn(m, t, c), t, Launch)
    ensures FireIn(FireIn(m, t, c), t, Launch) == m.(mutex := 0, pc := m.pc[t := Decide(role)])
  {
    var m1 := FireIn(m, t, c);
    assert m1 == m.(pc := m.pc[t := Enter(role)]);
    assert m1.pc[t := Decide(role)] == m.pc[t := Decide(role)];
  }

  /** A call as a schedule. */
  function Call(t: nat, c: Choice, n: nat): Schedule {
    [(t, c)] + Steps(t, n)
  }

  lemma CallRuns(m: Memory, t: nat, c: Choice, n: nat)
    requires Enabled(m, t, c) && Feasible(FireIn(m, t, c), Steps(t, n))
    ensures Feasible(m, Call(t, c, n)) && Exec(m, Call(t, c, n)) == Exec(FireIn(m, t, c), Steps(t, n))
  {
    assert Call(t, c, n)[1..] == Steps(t, n);
  }

  lemma RunExtends(m: Memory, sched: Schedule, t: nat, c: Choice)
    requires Feasible(m, sched) && Enabled(Exec(m, sched), t, c)
    ensures Feasible(m, sched + [(t, c)]) && Exec(m, sched + [(t, c)]) == FireIn(Exec(m, sched), t, c)
    decreases |sched|
  {
    var all := sched + [(t, c)];
    if sched == [] {
      assert all == [(t, c)] && all[1..] == [];
    } else {
      assert all[1..] == sched[1..] + [(t, c)];
      RunExtends(FireIn(m, sched[0].0, sched[0].1), sched[1..], t, c);
    }
  }

  /** request_def_index with the mutex free and an index free: the caller gets it. */
  lemma RequestCall(m0: Memory, n: nat, sched: Schedule, t: nat)
    requires InitMemory(m0, n) && Feasible(m0, sched)
    requires var m := Exec(m0, sched); m.mutex == 1 && t < |m.pc| && m.pc[t].Idle? && m.q.free != NONE
    ensures var m := Exec(m0, sched);
      && Feasible(m, Call(t, Request, 4))
      && Exec(m, Call(t, Request, 4)).pc == m.pc[t := Using(m.q.free)] && Exec(m, Call(t, Request, 4)).mutex == 1
  {
    var m := Exec(m0, sched);
    EntersCall(m, t, Request, Take(Writer));
    var m1 := FireIn(m, t, Request);
    RunExtends(m0, sched, t, Request);
    RunExtends(m0, sched + [(t, Request)], t, Launch);
    FreeIndexGranted(m0, n, sched + [(t, Request)] + [(t, Launch)], t);
    OneStep(m1, t, 3);
    CallRuns(m, t, Request, 4);
  }

  /** get_next_index with the mutex free: the caller blocks, because nothing is pending
      then, and gives the mutex back. */
  lemma NextCallBlocks(m0: Memory, n: nat, sched: Schedule, t: nat)
    requires InitMemory(m0, n) && Feasible(m0, sched)
    requires var m := Exec(m0, sched); m.mutex == 1 && t < |m.pc| && m.pc[t].Idle?
    ensures var m := Exec(m0, sched);
      && Feasible(m, Call(t, Next, 3))
      && Exec(m, Call(t, Next, 3)) == m.(readBlk := m.readBlk + 1, pc := m.pc[t := Blocked(Reader)])
  {
    var m := Exec(m0, sched);
    FreeMutexMeansQuiet(m0, n, sched);
    EntersCall(m, t, Next, Take(Reader));
    var m1 := FireIn(m, t, Next);
    var m2 := FireIn(m1, t, Launch);
    var m3 := FireIn(m2, t, Launch);
    var m4 := FireIn(m3, t, Launch);
    assert m4.pc == m.pc[t := Blocked(Reader)];
    NoSteps(m4, t);
    OneStep(m3, t, 0);
    OneStep(m2, t, 1);
    OneStep(m1, t, 2);
    CallRuns(m, t, Next, 3);
  }

  /** clear_missile with the mutex free and no writer blocked: the index that the caller
      used becomes the one that freeIndex names. */
  lemma ReleaseCall(m0: Memory, n: nat, sched: Schedule, t: nat)
    requires InitMemory(m0, n) && Feasible(m0, sched)
    requires var m := Exec(m0, sched); m.mutex == 1 && t < |m.pc| && m.pc[t].Using? && m.writeBlk == 0
    ensures var m := Exec(m0, sched);
      && Feasible(m, Call(t, Launch, 2))
      && var m' := Exec(m, Call(t, Launch, 2));
         m'.pc == m.pc[t := Idle] && m'.mutex == 1 && m'.q.free == m.pc[t].idx
  {
    var m := Exec(m0, sched);
    var q := ReachableStands(m0, n, sched);
    HeldElsewhere(With(m, q), n, m.pc[t].idx, t);
    EntersCall(m, t, Launch, Release(m.pc[t].idx));
    var m1 := FireIn(m, t, Launch);
    var m2 := FireIn(m1, t, Launch);
    var m3 := FireIn(m2, t, Launch);
    assert m3.pc == m.pc[t := Idle];
    NoSteps(m3, t);
    OneStep(m2, t, 0);
    OneStep(m1, t, 1);
    CallRuns(m, t, Launch, 2);
  }
}
