/** What the index queue guarantees over whole runs of its clients, on the array. */
module QueueTheorems {
  import opened Counting
  import opened IndexQueue
  import opened QueueProtocol
  import opened QueueRefinement

  type Schedule = seq<(nat, Choice)>

  /** Every step of the schedule can be taken from m. */
  ghost predicate Feasible(m: Memory, sched: Schedule)
    decreases |sched|
  {
    sched != [] ==>
      && Enabled(m, sched[0].0, sched[0].1)
      && Feasible(FireIn(m, sched[0].0, sched[0].1), sched[1..])
  }

  ghost function Exec(m: Memory, sched: Schedule): Memory
    requires Feasible(m, sched)
    decreases |sched|
  {
    if sched == [] then m else Exec(FireIn(m, sched[0].0, sched[0].1), sched[1..])
  }

  lemma {:induction false} RunStands(m: Memory, n: nat, q: Lists, sched: Schedule) returns (q': Lists)
    requires StandsFor(m, n, q) && Feasible(m, sched)
    ensures StandsFor(Exec(m, sched), n, q')
    decreases |sched|
  {
    q' := q;
    if sched != [] {
      var (t, c) := sched[0];
      StepRefines(m, n, q, t, c);
      q' := RunStands(FireIn(m, t, c), n, Fire(With(m, q), t, c).q, sched[1..]);
    }
  }

  /** In every reachable state next[] and its three indices stand for two lists. */
  lemma ReachableStands(m0: Memory, n: nat, sched: Schedule) returns (q: Lists)
    requires InitMemory(m0, n) && Feasible(m0, sched)
    ensures StandsFor(Exec(m0, sched), n, q)
  {
    InitStands(m0, n);
    q := RunStands(m0, n, AllFree(n), sched);
  }

  /** No assert of the queue fails and no access leaves next[], in any interleaving.
      In particular a thread about to pop finds freeIndex >= 0 or headIndex >= 0. */
  lemma AssertsHold(m0: Memory, n: nat, sched: Schedule)
    requires InitMemory(m0, n) && Feasible(m0, sched)
    ensures var m := Exec(m0, sched);
      forall t | 0 <= t < |m.pc| ::
        && !m.pc[t].Aborted?
        && (m.pc[t] == Pop(Writer) ==> 0 <= m.q.free < n)
        && (m.pc[t] == Pop(Reader) ==> 0 <= m.q.head < n)
  {
    var q := ReachableStands(m0, n, sched);
    var m := Exec(m0, sched);
    NoneMeansEmpty(m.q, q);
    forall t | 0 <= t < |m.pc|
      ensures !m.pc[t].Aborted?
      ensures m.pc[t] == Pop(Writer) ==> q.free != []
      ensures m.pc[t] == Pop(Reader) ==> q.pending != []
    {
      assert TokenSees(With(m, q), With(m, q).pc[t]);
    }
  }

  /** Whenever the mutex is free, headIndex is NONE, and a writer is blocked only
      while freeIndex is NONE. */
  lemma FreeMutexMeansQuiet(m0: Memory, n: nat, sched: Schedule)
    requires InitMemory(m0, n) && Feasible(m0, sched)
    ensures var m := Exec(m0, sched);
      m.mutex > 0 ==> m.q.head == NONE && (m.writeBlk > 0 ==> m.q.free == NONE)
  {
    var q := ReachableStands(m0, n, sched);
    NoneMeansEmpty(Exec(m0, sched).q, q);
  }

  /** Index partition: in every reachable state both chains through next[] are
      acyclic and end in NONE, tailIndex is the last pending index, and the free
      chain, the pending chain and the holders cover the indices exactly once. So
      no index is handed out twice. */
  lemma IndexPartition(m0: Memory, n: nat, sched: Schedule) returns (q: Lists)
    requires InitMemory(m0, n) && Feasible(m0, sched)
    ensures var m := Exec(m0, sched);
      && |m.q.next| == n && Represents(m.q, q) && Partition(q, m.pc, n)
  {
    q := ReachableStands(m0, n, sched);
    PlacesPartition(With(Exec(m0, sched), q), n);
  }

  /** Every index is free, pending or held by exactly one thread, and in one of
      these places only. */
  ghost predicate Partition(q: Lists, pc: seq<Pc>, n: nat) {
    && q.Distinct(n)
    && (forall i | 0 <= i < n ::
          i in q.free || i in q.pending || exists t :: 0 <= t < |pc| && Is(Holding(i), pc[t]))
    && (forall i, t | 0 <= t < |pc| && Is(Holding(i), pc[t]) ::
          0 <= i < n && i !in q.free && i !in q.pending)
    && (forall i, t, u | 0 <= t < |pc| && 0 <= u < |pc| && Is(Holding(i), pc[t]) && Is(Holding(i), pc[u]) ::
          t == u)
  }

  lemma PlacesPartition(s: State, n: nat)
    requires Shares(s, n)
    ensures Partition(s.q, s.pc, n)
  {
    forall a | 0 <= a < |s.q.free| ensures 0 <= s.q.free[a] < n {
      Listed(s.q.free, a);
      assert Places(s, s.q.free[a]) >= 1;
    }
    forall a | 0 <= a < |s.q.pending| ensures 0 <= s.q.pending[a] < n {
      Listed(s.q.pending, a);
      assert Places(s, s.q.pending[a]) >= 1;
    }
    forall a, b | 0 <= a < b < |s.q.free| ensures s.q.free[a] != s.q.free[b] {
      ListedTwice(s.q.free, a, b);
      assert Places(s, s.q.free[a]) <= 1;
    }
    forall a, b | 0 <= a < b < |s.q.pending| ensures s.q.pending[a] != s.q.pending[b] {
      ListedTwice(s.q.pending, a, b);
      assert Places(s, s.q.pending[a]) <= 1;
    }
    forall a, b | 0 <= a < |s.q.free| && 0 <= b < |s.q.pending| ensures s.q.free[a] != s.q.pending[b] {
      Listed(s.q.free, a);
      Listed(s.q.pending, b);
      assert Places(s, s.q.free[a]) <= 1;
    }
    forall i | 0 <= i < n
      ensures i in s.q.free || i in s.q.pending || exists t :: 0 <= t < |s.pc| && Is(Holding(i), s.pc[t])
    {
      SomewherePlaced(s, i);
    }
    forall i, t | 0 <= t < |s.pc| && Is(Holding(i), s.pc[t])
      ensures 0 <= i < n && i !in s.q.free && i !in s.q.pending
    {
      HeldElsewhere(s, n, i, t);
    }
    forall i, t, u | 0 <= t < |s.pc| && 0 <= u < |s.pc| && Is(Holding(i), s.pc[t]) && Is(Holding(i), s.pc[u])
      ensures t == u
    {
      assert Places(s, i) <= 1;
      assert Sel(Holding(i))(s.pc[t]) && Sel(Holding(i))(s.pc[u]);
      CountUnique(s.pc, Sel(Holding(i)), t, u);
    }
  }

  lemma ListedTwice(list: seq<int>, a: nat, b: nat)
    requires a < b < |list|
    ensures list[a] == list[b] ==> Occurs(list, list[a]) >= 2
  {
    if list[a] == list[b] {
      TwoWitnesses(list, Equals(list[a]), a, b);
    }
  }

  lemma SomewherePlaced(s: State, i: int)
    requires Places(s, i) == 1
    ensures i in s.q.free || i in s.q.pending || exists t :: 0 <= t < |s.pc| && Is(Holding(i), s.pc[t])
  {
    if Occurs(s.q.free, i) > 0 {
      var a := CountWitness(s.q.free, Equals(i));
    } else if Occurs(s.q.pending, i) > 0 {
      var a := CountWitness(s.q.pending, Equals(i));
    } else {
      var t := CountWitness(s.pc, Sel(Holding(i)));
      assert Is(Holding(i), s.pc[t]);
    }
  }

  /** Launch accounting: the accepted requests are the deliveries plus at most
      one launch in transit, which is there exactly while headIndex is not NONE. */
  lemma LaunchAccounting(m0: Memory, n: nat, sched: Schedule)
    requires InitMemory(m0, n) && Feasible(m0, sched)
    ensures var m := Exec(m0, sched);
      m.accepted == m.delivered + if m.q.head == NONE then 0 else 1
  {
    var q := ReachableStands(m0, n, sched);
    var s := With(Exec(m0, sched), q);
    NoneMeansEmpty(Exec(m0, sched).q, q);
    if s.mutex + s.readSem + s.writeSem == 0 {
      var t := CountWitness(s.pc, Sel(Token));
      assert Is(Token, s.pc[t]) && TokenSees(s, s.pc[t]);
    }
  }

  /** The thread is waiting for something that only a new call can bring. */
  predicate Resting(pc: Pc) {
    pc.Idle? || pc.Using? || pc.Blocked?
  }

  /** No missed wake-up: as long as some thread is inside a call, or a writer is
      blocked while an index is free, or a reader is blocked while a launch is
      pending, some thread inside a call can take its next step. */
  lemma NoLostWakeup(m0: Memory, n: nat, sched: Schedule)
    requires InitMemory(m0, n) && Feasible(m0, sched)
    ensures var m := Exec(m0, sched);
      (|| (exists t :: 0 <= t < |m.pc| && !Resting(m.pc[t]))
       || (exists t :: 0 <= t < |m.pc| && m.pc[t] == Blocked(Writer) && m.q.free != NONE)
       || (exists t :: 0 <= t < |m.pc| && m.pc[t] == Blocked(Reader) && m.q.head != NONE)) ==>
      exists u: nat :: u < |m.pc| && !m.pc[u].Idle? && !m.pc[u].Using? && Enabled(m, u, Launch)
  {
    var m := Exec(m0, sched);
    var q := ReachableStands(m0, n, sched);
    NoneMeansEmpty(m.q, q);
    var s := With(m, q);
    if Num(s, Token) > 0 {
      var u := CountWitness(s.pc, Sel(Token));
      assert Is(Token, s.pc[u]) && Enabled(m, u, Launch);
    } else if s.readSem + s.writeSem > 0 {
      var d := if s.readSem > 0 then Reader else Writer;
      assert s.Sem(d) <= Num(s, WaitingAt(d));
      var u := CountWitness(s.pc, Sel(WaitingAt(d)));
      assert Is(WaitingAt(d), s.pc[u]) && Enabled(m, u, Launch);
    } else {
      assert Quiet(s);
      CountZero(s.pc, Sel(Token));
      assert s.Blk(Writer) == Num(s, BlkOf(Writer));
      if t :| 0 <= t < |s.pc| && !Resting(s.pc[t]) {
        assert !Sel(Token)(s.pc[t]) && TokenSees(s, s.pc[t]);
        assert Enabled(m, t, Launch);
      } else if t :| 0 <= t < |s.pc| && s.pc[t] == Blocked(Writer) && s.q.free != [] {
        CountPositive(s.pc, t, Sel(BlkOf(Writer)));
      }
    }
  }
}
