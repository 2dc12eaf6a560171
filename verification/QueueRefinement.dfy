/** The index queue as the program holds it, in next[] and three indices, under the
    same clients, and the proof that it refines the lists of QueueProtocol. */
module QueueRefinement {
  import opened IndexQueue
  import opened QueueProtocol

  type Memory = Queue<Links>

  /** init_queue, lines 79-97, and threads that have not called anything. */
  ghost predicate InitMemory(m: Memory, n: nat) {
    && n >= 1 && |m.q.next| == n
    && m.q.next[n - 1] == NONE && (forall j | 0 <= j < n - 1 :: m.q.next[j] == j + 1)
    && m.q.free == 0 && m.q.head == NONE && m.q.tail == NONE
    && m.mutex == 1 && m.readBlk == 0 && m.writeBlk == 0 && m.readSem == 0 && m.writeSem == 0
    && m.accepted == 0 && m.delivered == 0
    && forall t | 0 <= t < |m.pc| :: m.pc[t] == Idle
  }

  /** request_atk_launch, lines 226-236. An access outside the array aborts, like
      the assert of line 198. */
  function ProducedIn(m: Memory, t: nat): Memory
    requires t < |m.pc|
  {
    if m.q.free == NONE || m.readBlk == 0 then m.(mutex := m.mutex + 1).At(t, Idle)
    else if !m.q.CanAccept() || m.readBlk <= 0 then m.At(t, Aborted)
    else m.(q := m.q.Accept(), readSem := m.readSem + 1, accepted := m.accepted + 1).At(t, Idle)
  }

  /** Line 255 for a writer, line 287 for a reader. */
  predicate MustBlockIn(m: Memory, side: Side) {
    if side.Writer? then m.q.free == NONE || m.writeBlk != 0 else m.q.head == NONE
  }

  /** Lines 263-267 and 295-298: the assert, an access outside the array, the pop. */
  function PoppedIn(m: Memory, t: nat, side: Side): Memory
    requires t < |m.pc|
  {
    if side.Writer? then
      if m.q.free < 0 || !m.q.InArray(m.q.free) then m.At(t, Aborted)
      else m.(q := m.q.PopFree()).At(t, Open(m.q.free))
    else
      if m.q.head < 0 || !m.q.InArray(m.q.head) then m.At(t, Aborted)
      else m.(q := m.q.PopHead(), delivered := m.delivered + 1).At(t, Open(m.q.head))
  }

  /** splice_index, lines 311-327. */
  function ReleasedIn(m: Memory, t: nat, i: int): Memory
    requires t < |m.pc|
  {
    if i < 0 || !m.q.InArray(i) then m.At(t, Aborted)
    else if m.writeBlk != 0 then m.(q := m.q.Push(i), writeSem := m.writeSem + 1).At(t, Idle)
    else m.(q := m.q.Push(i), mutex := m.mutex + 1).At(t, Idle)
  }

  /** One statement of thread t on the array. */
  function FireIn(m: Memory, t: nat, c: Choice): Memory
    requires Enabled(m, t, c)
  {
    match m.pc[t]
    case Decide(Produce) => ProducedIn(m, t)
    case Decide(Take(d)) => if MustBlockIn(m, d) then m.AddBlk(d, 1).At(t, Park(d)) else m.At(t, Pop(d))
    case Decide(Release(i)) => ReleasedIn(m, t, i)
    case Pop(d) => PoppedIn(m, t, d)
    case _ => FireOutside(m, t, c)
  }

  // ----- the refinement -----

  /** The same state with the lists in place of the array. */
  function With(m: Memory, q: Lists): State {
    Queue(q, m.mutex, m.readBlk, m.writeBlk, m.readSem, m.writeSem, m.pc, m.accepted, m.delivered)
  }

  /** The array stands for the lists q, and the protocol's invariant holds of them. */
  ghost predicate StandsFor(m: Memory, n: nat, q: Lists) {
    |m.q.next| == n && Represents(m.q, q) && Inv(With(m, q), n)
  }

  lemma InitStands(m: Memory, n: nat)
    requires InitMemory(m, n)
    ensures StandsFor(m, n, AllFree(n))
  {
    InitRefines(m.q.next);
    InitInv(With(m, AllFree(n)), n);
  }

  /** The lists after a step of the protocol, and the array after the same step. */
  ghost predicate Matches(m: Memory, n: nat, q: Lists, t: nat, c: Choice)
    requires Enabled(m, t, c)
  {
    var s' := Fire(With(m, q), t, c);
    var m' := FireIn(m, t, c);
    |m'.q.next| == n && Represents(m'.q, s'.q) && With(m', s'.q) == s'
  }

  /** Whether request_atk_launch accepts, on the array and on the lists. */
  lemma ProducedAgrees(m: Memory, q: Lists, t: nat)
    requires t < |m.pc| && m.readBlk >= 0 && (m.q.free == NONE <==> q.free == [])
    requires q.free != [] ==> m.q.CanAccept() && q.free[0] >= 0
    ensures var m' := ProducedIn(m, t); var s' := Produced(With(m, q), t);
      && With(m', s'.q) == s'
      && ((m'.q == m.q && s'.q == q) || (q.free != [] && m'.q == m.q.Accept() && s'.q == q.Accept()))
  {
  }

  lemma ProducedRefines(m: Memory, q: Lists, t: nat)
    requires Represents(m.q, q) && t < |m.pc| && m.readBlk >= 0
    ensures var m' := ProducedIn(m, t); var s' := Produced(With(m, q), t);
      |m'.q.next| == |m.q.next| && Represents(m'.q, s'.q) && With(m', s'.q) == s'
  {
    NoneMeansEmpty(m.q, q);
    if q.free != [] { AcceptRefines(m.q, q); }
    ProducedAgrees(m, q, t);
  }

  lemma ProduceMatches(m: Memory, n: nat, q: Lists, t: nat, c: Choice)
    requires StandsFor(m, n, q) && Enabled(m, t, c) && m.pc[t] == Decide(Produce)
    ensures Matches(m, n, q, t, c)
  {
    assert With(m, q).Blk(Reader) == Num(With(m, q), BlkOf(Reader));
    ProducedRefines(m, q, t);
  }

  lemma TakeMatches(m: Memory, n: nat, q: Lists, t: nat, c: Choice, d: Side)
    requires StandsFor(m, n, q) && Enabled(m, t, c) && m.pc[t] == Decide(Take(d))
    ensures Matches(m, n, q, t, c)
  {
    NoneMeansEmpty(m.q, q);
  }

  lemma ReleasedAgrees(m: Memory, q: Lists, t: nat, i: int)
    requires t < |m.pc| && m.q.InArray(i)
    ensures var m' := ReleasedIn(m, t, i); var s' := Released(With(m, q), t, i);
      With(m', s'.q) == s' && m'.q == m.q.Push(i) && s'.q == q.Splice(i)
  {
  }

  lemma ReleasedRefines(m: Memory, q: Lists, t: nat, i: int)
    requires Represents(m.q, q) && t < |m.pc| && Unused(|m.q.next|, q, i)
    ensures var m' := ReleasedIn(m, t, i); var s' := Released(With(m, q), t, i);
      |m'.q.next| == |m.q.next| && Represents(m'.q, s'.q) && With(m', s'.q) == s'
  {
    SpliceRefines(m.q, q, i);
    ReleasedAgrees(m, q, t, i);
  }

  lemma ReleaseMatches(m: Memory, n: nat, q: Lists, t: nat, c: Choice, i: int)
    requires StandsFor(m, n, q) && Enabled(m, t, c) && m.pc[t] == Decide(Release(i))
    ensures Matches(m, n, q, t, c)
  {
    HeldElsewhere(With(m, q), n, i, t);
    ReleasedRefines(m, q, t, i);
  }

  lemma PopMatches(m: Memory, n: nat, q: Lists, t: nat, c: Choice, d: Side)
    requires StandsFor(m, n, q) && Enabled(m, t, c) && m.pc[t] == Pop(d)
    ensures Matches(m, n, q, t, c)
  {
    assert TokenSees(With(m, q), m.pc[t]);
    NoneMeansEmpty(m.q, q);
    if d.Writer? { PopFreeRefines(m.q, q); } else { PopHeadRefines(m.q, q); }
  }

  /** The other statements do not look at the queue. */
  lemma OutsideIgnoresQueue(m: Memory, q: Lists, t: nat, c: Choice)
    requires Enabled(m, t, c) && !m.pc[t].Decide? && !m.pc[t].Pop?
    ensures FireOutside(m, t, c).q == m.q
    ensures FireOutside(With(m, q), t, c) == With(FireOutside(m, t, c), q)
  {
  }

  lemma OutsideMatches(m: Memory, n: nat, q: Lists, t: nat, c: Choice)
    requires |m.q.next| == n && Represents(m.q, q) && Enabled(m, t, c) && !m.pc[t].Decide? && !m.pc[t].Pop?
    ensures Matches(m, n, q, t, c)
  {
    OutsideIgnoresQueue(m, q, t, c);
  }

  /** Every statement on the array is the statement on the lists, and the array goes
      on standing for them. */
  lemma StepRefines(m: Memory, n: nat, q: Lists, t: nat, c: Choice)
    requires StandsFor(m, n, q) && Enabled(m, t, c)
    ensures With(FireIn(m, t, c), Fire(With(m, q), t, c).q) == Fire(With(m, q), t, c)
    ensures StandsFor(FireIn(m, t, c), n, Fire(With(m, q), t, c).q)
  {
    assert Matches(m, n, q, t, c) by {
      match m.pc[t]
      case Decide(Produce) => ProduceMatches(m, n, q, t, c);
      case Decide(Take(d)) => TakeMatches(m, n, q, t, c, d);
      case Decide(Release(i)) => ReleaseMatches(m, n, q, t, c, i);
      case Pop(d) => PopMatches(m, n, q, t, c, d);
      case _ => OutsideMatches(m, n, q, t, c);
    }
    StepInv(With(m, q), n, t, c);
  }

  /** The asserts of lines 198, 263, 295 and 313 hold, and no access leaves next[]. */
  lemma StepDoesNotAbortIn(m: Memory, n: nat, q: Lists, t: nat, c: Choice)
    requires StandsFor(m, n, q) && Enabled(m, t, c)
    ensures |FireIn(m, t, c).pc| == |m.pc| && !FireIn(m, t, c).pc[t].Aborted?
  {
    StepRefines(m, n, q, t, c);
    StepDoesNotAbort(With(m, q), n, t, c);
  }
}
