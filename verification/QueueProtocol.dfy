/** The clients of one index queue (launchers.c) as a transition system over any
    number of threads: the producer (request_atk_launch), the writer
    (request_def_index), the reader (get_next_index) and the releaser
    (clear_missile with splice_index), in any mix and any interleaving. The
    program has no queue that serves all four; the attacker queue and the
    defender queue are the two special cases. Here the queue is its two lists;
    QueueRefinement runs the same clients on next[] and the three indices. */
module QueueProtocol {
  import opened Counting
  import opened IndexQueue

  /** The two callers that can block: request_def_index and get_next_index. */
  datatype Side = Writer | Reader

  datatype Role = Produce | Take(side: Side) | Release(idx: int)

  /** Where a thread is. Every constructor names the next statement to run. */
  datatype Pc =
    | Idle
    | Enter(role: Role)      // sem_wait(mutex): lines 223, 253, 285, 358
    | Decide(role: Role)     // the test under the mutex; for a producer or a releaser the whole section
    | Park(side: Side)       // sem_post(mutex) with blk raised: lines 258, 290
    | Blocked(side: Side)    // sem_wait on the private semaphore: lines 259, 291
    | Woken(side: Side)      // blk--: lines 260, 292
    | Pop(side: Side)        // the assert and the pop: lines 263-267, 295-298
    | Open(idx: int)         // sem_post(mutex): lines 269, 300
    | Using(idx: int)        // the thread owns a missile record
    | Aborted                // an assert failed

  /** The calls an idle thread can make, and the hand-over of an index from a
      launcher to the missile task it creates. */
  datatype Choice = Launch | Request | Next | HandTo(u: nat)

  /** The shared memory of one queue and its threads. Q is what the queue is made
      of: its lists, or the array and the three indices that stand for them. */
  datatype Queue<Q> = Queue(
    q: Q, mutex: nat, readBlk: int, writeBlk: int, readSem: nat, writeSem: nat,
    pc: seq<Pc>,
    // history: accepted launch requests, and indices delivered to readers
    accepted: nat, delivered: nat)
  {
    function Blk(side: Side): int {
      if side.Writer? then writeBlk else readBlk
    }

    function Sem(side: Side): nat {
      if side.Writer? then writeSem else readSem
    }

    function AddBlk(side: Side, d: int): Queue<Q> {
      if side.Writer? then this.(writeBlk := writeBlk + d) else this.(readBlk := readBlk + d)
    }

    /** The same state with thread t at x. */
    function At(t: nat, x: Pc): Queue<Q>
      requires t < |pc|
    {
      this.(pc := pc[t := x])
    }
  }

  type State = Queue<Lists>

  datatype Kind = Token | BlkOf(side: Side) | WaitingAt(side: Side) | Holding(idx: int)

  predicate Is(k: Kind, pc: Pc) {
    match k
    case Token => pc.Decide? || pc.Park? || pc.Woken? || pc.Pop? || pc.Open?
    case BlkOf(d) => pc == Park(d) || pc == Blocked(d) || pc == Woken(d)
    case WaitingAt(d) => pc == Blocked(d)
    case Holding(i) => pc == Enter(Release(i)) || pc == Decide(Release(i)) || pc == Open(i) || pc == Using(i)
  }

  ghost function Sel(k: Kind): Pc -> bool {
    pc => Is(k, pc)
  }

  ghost function Num(s: State, k: Kind): nat {
    Count(s.pc, Sel(k))
  }

  /** How often i is listed, and how many threads were given i and have not
      spliced it back yet. */
  ghost function Places(s: State, i: int): nat {
    Occurs(s.q.free, i) + Occurs(s.q.pending, i) + Num(s, Holding(i))
  }

  ghost function Equals(i: int): int -> bool {
    x => x == i
  }

  ghost function Occurs(list: seq<int>, i: int): nat {
    Count(list, Equals(i))
  }

  ghost predicate Init(s: State, n: nat) {
    && s.q == AllFree(n)
    && s.mutex == 1 && s.readBlk == 0 && s.writeBlk == 0 && s.readSem == 0 && s.writeSem == 0
    && s.accepted == 0 && s.delivered == 0
    && forall t | 0 <= t < |s.pc| :: s.pc[t] == Idle
  }

  predicate Enabled<Q>(s: Queue<Q>, t: nat, c: Choice) {
    && t < |s.pc|
    && match s.pc[t]
       case Idle => !c.HandTo?
       case Enter(_) => s.mutex > 0
       case Blocked(d) => s.Sem(d) > 0
       case Using(_) => c.HandTo? ==> c.u < |s.pc| && s.pc[c.u].Idle?
       case Aborted => false
       case _ => true
  }

  /** request_atk_launch, lines 226-236, with the assert of line 198. */
  function Produced(s: State, t: nat): State
    requires t < |s.pc|
  {
    if s.q.free == [] || s.readBlk == 0 then s.(mutex := s.mutex + 1).At(t, Idle)
    else if s.q.free[0] < 0 || s.readBlk <= 0 then s.At(t, Aborted)
    else s.(q := s.q.Accept(), readSem := s.readSem + 1, accepted := s.accepted + 1).At(t, Idle)
  }

  /** Line 255 for a writer, line 287 for a reader: whether the caller must block. */
  predicate MustBlock(s: State, side: Side) {
    if side.Writer? then s.q.free == [] || s.writeBlk != 0 else s.q.pending == []
  }

  /** The pop under the asserts of lines 263 and 295. */
  function Popped(s: State, t: nat, side: Side): State
    requires t < |s.pc|
  {
    if side.Writer? then
      if s.q.free == [] || s.q.free[0] < 0 then s.At(t, Aborted)
      else s.(q := s.q.TakeFree()).At(t, Open(s.q.free[0]))
    else
      if s.q.pending == [] || s.q.pending[0] < 0 then s.At(t, Aborted)
      else s.(q := s.q.TakePending(), delivered := s.delivered + 1).At(t, Open(s.q.pending[0]))
  }

  /** splice_index, lines 311-327. */
  function Released(s: State, t: nat, i: int): State
    requires t < |s.pc|
  {
    if i < 0 then s.At(t, Aborted)
    else if s.writeBlk != 0 then s.(q := s.q.Splice(i), writeSem := s.writeSem + 1).At(t, Idle)
    else s.(q := s.q.Splice(i), mutex := s.mutex + 1).At(t, Idle)
  }

  /** The statements that do not touch the queue. */
  function FireOutside<Q>(s: Queue<Q>, t: nat, c: Choice): Queue<Q>
    requires Enabled(s, t, c) && !s.pc[t].Decide? && !s.pc[t].Pop?
  {
    match s.pc[t]
    case Idle => s.At(t, Enter(if c.Launch? then Produce else if c.Request? then Take(Writer) else Take(Reader)))
    case Enter(r) => s.(mutex := s.mutex - 1).At(t, Decide(r))
    case Park(d) => s.(mutex := s.mutex + 1).At(t, Blocked(d))
    case Blocked(Writer) => s.(writeSem := s.writeSem - 1).At(t, Woken(Writer))
    case Blocked(Reader) => s.(readSem := s.readSem - 1).At(t, Woken(Reader))
    case Woken(d) => s.AddBlk(d, -1).At(t, Pop(d))
    case Open(i) => s.(mutex := s.mutex + 1).At(t, Using(i))
    case Using(i) => if c.HandTo? then s.At(t, Idle).At(c.u, Using(i)) else s.At(t, Enter(Release(i)))
  }

  function Fire(s: State, t: nat, c: Choice): State
    requires Enabled(s, t, c)
  {
    match s.pc[t]
    case Decide(Produce) => Produced(s, t)
    case Decide(Take(d)) => if MustBlock(s, d) then s.AddBlk(d, 1).At(t, Park(d)) else s.At(t, Pop(d))
    case Decide(Release(i)) => Released(s, t, i)
    case Pop(d) => Popped(s, t, d)
    case _ => FireOutside(s, t, c)
  }

  // ----- the invariant -----

  /** Nothing is pending, and writers are blocked only if nothing is free. */
  ghost predicate Quiet(s: State) {
    s.q.pending == [] && (s.writeBlk > 0 ==> s.q.free == [])
  }

  /** One launch is on its way to a reader. */
  ghost predicate Delivering(s: State) {
    |s.q.pending| == 1 && (s.writeBlk > 0 ==> s.q.free == [])
  }

  /** One freed index is on its way to a writer. */
  ghost predicate Refilling(s: State) {
    s.q.pending == [] && |s.q.free| == 1
  }

  /** What the holder of the mutex may rely on, by where it is. */
  ghost predicate TokenSees(s: State, pc: Pc) {
    match pc
    case Woken(Reader) => Delivering(s)
    case Pop(Reader) => Delivering(s)
    case Woken(Writer) => Refilling(s)
    case Pop(Writer) => s.q.pending == [] && |s.q.free| >= 1 && (s.writeBlk > 0 ==> |s.q.free| == 1)
    case _ => Is(Token, pc) ==> Quiet(s)
  }

  /** Every index is free, pending or held by one thread, exactly once. */
  ghost predicate Shares(s: State, n: nat) {
    forall i :: Places(s, i) == if 0 <= i < n then 1 else 0
  }

  ghost predicate Counts(s: State) {
    && s.mutex + Num(s, Token) + s.readSem + s.writeSem == 1
    && (forall d :: s.Blk(d) == Num(s, BlkOf(d)))
    && (forall d :: s.Sem(d) <= Num(s, WaitingAt(d)))
  }

  ghost predicate Contents(s: State) {
    && (s.mutex > 0 ==> Quiet(s))
    && (s.readSem > 0 ==> Delivering(s))
    && (s.writeSem > 0 ==> Refilling(s))
    && s.accepted == s.delivered + |s.q.pending|
  }

  ghost predicate Inv(s: State, n: nat) {
    && Counts(s)
    && Contents(s)
    && (forall t | 0 <= t < |s.pc| :: TokenSees(s, s.pc[t]) && !s.pc[t].Aborted?)
    && Shares(s, n)
  }

  lemma InitInv(s: State, n: nat)
    requires Init(s, n)
    ensures Inv(s, n)
  {
    forall k ensures Num(s, k) == 0 {
      CountZero(s.pc, Sel(k));
    }
    forall i ensures Places(s, i) == if 0 <= i < n then 1 else 0 {
      var all := AllFree(n).free;
      CountZero(all, Equals(i));
      if 0 <= i < n {
        assert Equals(i)(all[i]);
        if Occurs(all, i) >= 2 { OccursTwice(all, i); }
      }
    }
  }

  /** A list that holds a value twice is not injective. */
  lemma {:induction false} OccursTwice(list: seq<int>, i: int)
    requires Occurs(list, i) >= 2
    ensures exists a, b :: 0 <= a < b < |list| && list[a] == list[b] == i
  {
    if list[0] == i {
      var b := CountWitness(list[1..], Equals(i));
      assert list[b + 1] == i;
    } else {
      OccursTwice(list[1..], i);
      var a, b :| 0 <= a < b < |list[1..]| && list[1..][a] == list[1..][b] == i;
      assert list[a + 1] == list[b + 1] == i;
    }
  }

  lemma {:induction false} OccursAppend(list: seq<int>, x: int, i: int)
    ensures Occurs(list + [x], i) == Occurs(list, i) + if x == i then 1 else 0
  {
    if list == [] {
      assert list + [x] == [x];
    } else {
      assert (list + [x])[1..] == list[1..] + [x];
      OccursAppend(list[1..], x, i);
    }
  }

  lemma OccursPush(list: seq<int>, x: int, i: int)
    ensures Occurs([x] + list, i) == Occurs(list, i) + if x == i then 1 else 0
  {
    assert ([x] + list)[1..] == list;
  }

  lemma TokenUnique(s: State, t: nat)
    requires Counts(s) && t < |s.pc| && Is(Token, s.pc[t])
    ensures s.mutex == 0 && s.readSem == 0 && s.writeSem == 0
    ensures forall u | 0 <= u < |s.pc| && u != t :: !Is(Token, s.pc[u])
  {
    CountPositive(s.pc, t, Sel(Token));
    forall u | 0 <= u < |s.pc| && u != t ensures !Is(Token, s.pc[u]) {
      if Is(Token, s.pc[u]) {
        assert Sel(Token)(s.pc[t]) && Sel(Token)(s.pc[u]);
        CountUnique(s.pc, Sel(Token), t, u);
      }
    }
  }

  /** A listed index is a legal one. */
  lemma ListedInRange(s: State, n: nat, list: seq<int>)
    requires Shares(s, n) && list != []
    requires list == s.q.free || list == s.q.pending
    ensures 0 <= list[0] < n
  {
    assert Places(s, list[0]) >= 1;
  }

  /** A held index is a legal one. */
  lemma HeldInRange(s: State, n: nat, t: nat, i: int)
    requires Shares(s, n) && t < |s.pc| && Is(Holding(i), s.pc[t])
    ensures 0 <= i < n
  {
    CountPositive(s.pc, t, Sel(Holding(i)));
    assert Places(s, i) >= 1;
  }

  lemma Listed(list: seq<int>, a: nat)
    requires a < |list|
    ensures Occurs(list, list[a]) >= 1
  {
    CountZero(list, Equals(list[a]));
    assert Equals(list[a])(list[a]);
  }

  /** A held index is in neither list. */
  lemma HeldElsewhere(s: State, n: nat, i: int, t: nat)
    requires Shares(s, n) && t < |s.pc| && Is(Holding(i), s.pc[t])
    ensures 0 <= i < n && i !in s.q.free && i !in s.q.pending
  {
    HeldInRange(s, n, t, i);
    CountPositive(s.pc, t, Sel(Holding(i)));
    assert Places(s, i) == 1;
    if a :| 0 <= a < |s.q.free| && s.q.free[a] == i { Listed(s.q.free, a); }
    if a :| 0 <= a < |s.q.pending| && s.q.pending[a] == i { Listed(s.q.pending, a); }
  }

  ghost predicate Shifted(s: State, s': State, t: nat, k: Kind)
    requires t < |s.pc| && |s'.pc| == |s.pc|
  {
    Num(s', k) == Num(s, k) - (if Is(k, s.pc[t]) then 1 else 0) + (if Is(k, s'.pc[t]) then 1 else 0)
  }

  /** The hand-over is the only step that moves two threads. */
  predicate HandsOver(s: State, t: nat, c: Choice) {
    t < |s.pc| && s.pc[t].Using? && c.HandTo?
  }

  lemma StepMovesOne(s: State, t: nat, c: Choice)
    requires Enabled(s, t, c) && !HandsOver(s, t, c)
    ensures |Fire(s, t, c).pc| == |s.pc|
    ensures Fire(s, t, c).pc == s.pc[t := Fire(s, t, c).pc[t]]
  {
  }

  lemma StepShifts(s: State, t: nat, c: Choice, k: Kind)
    requires Enabled(s, t, c) && (k.Holding? ==> !HandsOver(s, t, c))
    ensures |Fire(s, t, c).pc| == |s.pc| && Shifted(s, Fire(s, t, c), t, k)
  {
    if HandsOver(s, t, c) {
      CountUpdate(s.pc, t, Idle, Sel(k));
      CountUpdate(s.pc[t := Idle], c.u, s.pc[t], Sel(k));
    } else {
      StepMovesOne(s, t, c);
      CountUpdate(s.pc, t, Fire(s, t, c).pc[t], Sel(k));
    }
  }

  /** A hand-over moves the index to another thread. */
  lemma HandOverKeepsHolders(s: State, t: nat, c: Choice, i: int)
    requires Enabled(s, t, c) && HandsOver(s, t, c)
    ensures Num(Fire(s, t, c), Holding(i)) == Num(s, Holding(i))
  {
    CountUpdate(s.pc, t, Idle, Sel(Holding(i)));
    CountUpdate(s.pc[t := Idle], c.u, s.pc[t], Sel(Holding(i)));
  }

  /** A raised blk seen under the mutex has a thread at the semaphore. */
  lemma BlkHasWaiter(s: State, t: nat, d: Side)
    requires Counts(s) && t < |s.pc| && s.pc[t].Decide? && s.Blk(d) != 0
    ensures Num(s, WaitingAt(d)) >= 1
  {
    TokenUnique(s, t);
    var u := CountWitness(s.pc, Sel(BlkOf(d)));
    assert Is(BlkOf(d), s.pc[u]);
    CountPositive(s.pc, u, Sel(WaitingAt(d)));
  }

  /** The asserts of lines 198, 263, 295 and 313 hold at every step. */
  lemma StepDoesNotAbort(s: State, n: nat, t: nat, c: Choice)
    requires Inv(s, n) && Enabled(s, t, c)
    ensures |Fire(s, t, c).pc| == |s.pc| && !Fire(s, t, c).pc[t].Aborted?
  {
    assert TokenSees(s, s.pc[t]);
    if s.q.free != [] { ListedInRange(s, n, s.q.free); }
    if s.q.pending != [] { ListedInRange(s, n, s.q.pending); }
    if i :| s.pc[t] == Decide(Release(i)) { HeldInRange(s, n, t, i); }
    if s.pc[t] == Decide(Produce) { assert s.Blk(Reader) == Num(s, BlkOf(Reader)); }
  }

  /** The token stays unique. */
  lemma StepKeepsToken(s: State, t: nat, c: Choice)
    requires s.mutex + Num(s, Token) + s.readSem + s.writeSem == 1 && Enabled(s, t, c)
    requires |Fire(s, t, c).pc| == |s.pc| && !Fire(s, t, c).pc[t].Aborted?
    ensures var s' := Fire(s, t, c); s'.mutex + Num(s', Token) + s'.readSem + s'.writeSem == 1
  {
    StepShifts(s, t, c, Token);
  }

  /** Only the blocking test and the wake-up change blk. */
  lemma QuietStepKeepsBlk(s: State, t: nat, c: Choice, d: Side)
    requires Enabled(s, t, c) && !s.pc[t].Decide? && !s.pc[t].Woken?
    requires |Fire(s, t, c).pc| == |s.pc| && !Fire(s, t, c).pc[t].Aborted?
    ensures Fire(s, t, c).Blk(d) == s.Blk(d)
    ensures Num(Fire(s, t, c), BlkOf(d)) == Num(s, BlkOf(d))
  {
    StepShifts(s, t, c, BlkOf(d));
  }

  /** blk counts the blocked threads of its side. */
  lemma StepKeepsBlk(s: State, t: nat, c: Choice, d: Side)
    requires s.Blk(d) == Num(s, BlkOf(d)) && Enabled(s, t, c)
    requires |Fire(s, t, c).pc| == |s.pc| && !Fire(s, t, c).pc[t].Aborted?
    ensures Fire(s, t, c).Blk(d) == Num(Fire(s, t, c), BlkOf(d))
  {
    if s.pc[t].Decide? || s.pc[t].Woken? {
      StepShifts(s, t, c, BlkOf(d));
    } else {
      QuietStepKeepsBlk(s, t, c, d);
    }
  }

  /** A posted semaphore has a waiter. */
  lemma StepKeepsSem(s: State, t: nat, c: Choice, d: Side)
    requires Counts(s) && Enabled(s, t, c)
    requires |Fire(s, t, c).pc| == |s.pc| && !Fire(s, t, c).pc[t].Aborted?
    ensures Fire(s, t, c).Sem(d) <= Num(Fire(s, t, c), WaitingAt(d))
  {
    StepShifts(s, t, c, WaitingAt(d));
    assert s.Sem(d) <= Num(s, WaitingAt(d));
    if s.pc[t].Decide? {
      TokenUnique(s, t);
      if s.Blk(d) != 0 { BlkHasWaiter(s, t, d); }
    }
  }

  lemma StepKeepsCounts(s: State, t: nat, c: Choice)
    requires Counts(s) && Enabled(s, t, c)
    requires |Fire(s, t, c).pc| == |s.pc| && !Fire(s, t, c).pc[t].Aborted?
    ensures Counts(Fire(s, t, c))
  {
    var s' := Fire(s, t, c);
    StepKeepsToken(s, t, c);
    forall d ensures s'.Blk(d) == Num(s', BlkOf(d)) {
      assert s.Blk(d) == Num(s, BlkOf(d));
      StepKeepsBlk(s, t, c, d);
    }
    forall d ensures s'.Sem(d) <= Num(s', WaitingAt(d)) {
      StepKeepsSem(s, t, c, d);
    }
  }

  /** What the lists hold after a step inside a critical section. */
  lemma TokenKeepsContents(s: State, t: nat, c: Choice)
    requires Counts(s) && Contents(s) && Enabled(s, t, c) && Is(Token, s.pc[t]) && TokenSees(s, s.pc[t])
    requires |Fire(s, t, c).pc| == |s.pc| && !Fire(s, t, c).pc[t].Aborted?
    ensures Contents(Fire(s, t, c)) && TokenSees(Fire(s, t, c), Fire(s, t, c).pc[t])
  {
    TokenUnique(s, t);
    assert s.Blk(Writer) == Num(s, BlkOf(Writer));
    if s.pc[t] == Park(Writer) || s.pc[t] == Woken(Writer) {
      CountPositive(s.pc, t, Sel(BlkOf(Writer)));
    }
  }

  lemma OthersKeepContents(s: State, t: nat, c: Choice)
    requires Contents(s) && Enabled(s, t, c) && !Is(Token, s.pc[t])
    ensures |Fire(s, t, c).pc| == |s.pc|
    ensures Contents(Fire(s, t, c)) && TokenSees(Fire(s, t, c), Fire(s, t, c).pc[t])
  {
    StepShifts(s, t, c, Token);
  }

  /** A step of t leaves the other threads' view alone. */
  lemma StepKeepsOthers(s: State, t: nat, c: Choice, u: nat)
    requires Counts(s) && Enabled(s, t, c) && u < |s.pc| && u != t
    requires TokenSees(s, s.pc[u]) && !s.pc[u].Aborted?
    ensures |Fire(s, t, c).pc| == |s.pc|
    ensures TokenSees(Fire(s, t, c), Fire(s, t, c).pc[u]) && !Fire(s, t, c).pc[u].Aborted?
  {
    StepShifts(s, t, c, Token);
    if !HandsOver(s, t, c) {
      StepMovesOne(s, t, c);
      if Is(Token, s.pc[t]) { TokenUnique(s, t); }
    }
  }

  /** Only the pops and the pushes touch the lists; every other step keeps what
      the thread holds. */
  lemma QuietStepKeepsPlaces(s: State, t: nat, c: Choice, i: int)
    requires Enabled(s, t, c) && !s.pc[t].Decide? && !s.pc[t].Pop?
    ensures Places(Fire(s, t, c), i) == Places(s, i)
  {
    if HandsOver(s, t, c) {
      HandOverKeepsHolders(s, t, c, i);
    } else {
      StepShifts(s, t, c, Holding(i));
    }
  }

  /** What the lists lose of an index, the thread gains, and the other way round. */
  lemma StepKeepsPlaces(s: State, t: nat, c: Choice, i: int)
    requires Enabled(s, t, c)
    requires |Fire(s, t, c).pc| == |s.pc| && !Fire(s, t, c).pc[t].Aborted?
    ensures Places(Fire(s, t, c), i) == Places(s, i)
  {
    if !s.pc[t].Decide? && !s.pc[t].Pop? {
      QuietStepKeepsPlaces(s, t, c, i);
    } else {
      StepShifts(s, t, c, Holding(i));
      match s.pc[t]
      case Decide(Produce) =>
        if s.q.free != [] { OccursAppend(s.q.pending, s.q.free[0], i); }
      case Decide(Release(r)) => OccursPush(s.q.free, r, i);
      case _ =>
    }
  }

  lemma StepInv(s: State, n: nat, t: nat, c: Choice)
    requires Inv(s, n) && Enabled(s, t, c)
    ensures Inv(Fire(s, t, c), n)
  {
    var s' := Fire(s, t, c);
    StepDoesNotAbort(s, n, t, c);
    assert TokenSees(s, s.pc[t]);
    if Is(Token, s.pc[t]) { TokenKeepsContents(s, t, c); } else { OthersKeepContents(s, t, c); }
    StepKeepsCounts(s, t, c);
    assert Shares(s', n) by {
      forall i ensures Places(s', i) == if 0 <= i < n then 1 else 0 {
        StepKeepsPlaces(s, t, c, i);
      }
    }
    forall u | 0 <= u < |s'.pc| ensures TokenSees(s', s'.pc[u]) && !s'.pc[u].Aborted? {
      if u != t { StepKeepsOthers(s, t, c, u); }
    }
  }
}
