/** Why one section between access_env and release_env may be one step: threads that
    run any statements on shared data under the lock of EnvLock, interleaved in any
    way, compute what whole sections compute, one after the other. */
module EnvSections {
  import opened Counting
  import opened EnvLock

  /** A statement of a section, as its effect on the shared data. */
  type Op<!D> = D -> D

  /** The lock, the shared data, and for every thread the section it will run or runs
      and how much of it has been run. */
  datatype System<!D> = System(
    lock: State, data: D, body: seq<seq<Op<D>>>, at: seq<nat>,
    // history: the sections completed, and the statements run outside, in order
    log: seq<seq<Op<D>>>)

  datatype Act<!D> =
    | Lock(t: nat, prio: nat, section: seq<Op<D>>)  // a statement of access_env or release_env
    | Statement(t: nat)                             // one statement of the section
    | Outside(t: nat, op: Op<D>)                    // a statement outside of every section

  /** The effect of a sequence of statements. */
  ghost function Whole<D>(ops: seq<Op<D>>, d: D): D {
    if ops == [] then d else ops[|ops| - 1](Whole(ops[..|ops| - 1], d))
  }

  /** Sections run one after the other, each without interruption. */
  ghost function Atomically<D>(log: seq<seq<Op<D>>>, d: D): D {
    if log == [] then d else Whole(log[|log| - 1], Atomically(log[..|log| - 1], d))
  }

  ghost predicate Commutes<D(!new)>(f: Op<D>, g: Op<D>) {
    forall d :: f(g(d)) == g(f(d))
  }

  ghost predicate Typed<D>(s: System<D>) {
    && |s.body| == |s.at| == |s.lock.pc| && |s.lock.blk| == |s.lock.sem|
  }

  /** A thread leaves when its section is finished. What a thread does outside, to its
      own record, commutes with the statements of the section that is running. */
  ghost predicate CanAct<D(!new)>(s: System<D>, a: Act<D>)
    requires Typed(s)
  {
    match a
    case Lock(t, prio, _) => Enabled(s.lock, t, prio) && (s.lock.pc[t].Inside? ==> s.at[t] == |s.body[t]|)
    case Statement(t) => t < |s.at| && s.lock.pc[t].Inside? && s.at[t] < |s.body[t]|
    case Outside(t, op) =>
      t < |s.at| && !s.lock.pc[t].Inside?
      && forall u, f | 0 <= u < |s.at| && s.lock.pc[u].Inside? && f in s.body[u] :: Commutes(op, f)
  }

  ghost function Do<D(!new)>(s: System<D>, a: Act<D>): System<D>
    requires Typed(s) && CanAct(s, a)
  {
    match a
    case Lock(t, prio, section) =>
      var s' := s.(lock := Fire(s.lock, t, prio));
      if s.lock.pc[t].Idle? then s'.(body := s.body[t := section], at := s.at[t := 0])
      else if s.lock.pc[t].Inside? then s'.(log := s.log + [s.body[t]])
      else s'
    case Statement(t) => s.(data := s.body[t][s.at[t]](s.data), at := s.at[t := s.at[t] + 1])
    case Outside(t, op) => s.(data := op(s.data), log := s.log + [[op]])
  }

  ghost predicate Init<D>(s: System<D>) {
    Typed(s) && EnvLock.Init(s.lock) && s.log == []
  }

  /** The thread has asked for entry and is not inside yet. */
  predicate Entering(pc: Pc) {
    pc.Enter? || pc.Check? || pc.Park? || pc.Blocked? || pc.Woken? || pc.Admit? || pc.Open?
  }

  /** The data is what the completed sections make of d0, and then, if a thread is
      inside, what it has run of its own section. */
  ghost predicate Explained<D>(s: System<D>, d0: D)
    requires Typed(s)
  {
    && ((forall t | 0 <= t < |s.at| :: !s.lock.pc[t].Inside?) ==> s.data == Atomically(s.log, d0))
    && (forall t | 0 <= t < |s.at| && s.lock.pc[t].Inside? ::
          s.at[t] <= |s.body[t]| && s.data == Whole(s.body[t][..s.at[t]], Atomically(s.log, d0)))
  }

  ghost predicate Inv<D>(s: System<D>, d0: D) {
    && Typed(s) && EnvLock.Inv(s.lock)
    && (forall t | 0 <= t < |s.at| && Entering(s.lock.pc[t]) :: s.at[t] == 0)
    && Explained(s, d0)
  }

  /** At most one thread is inside, and none while another is about to enter. */
  lemma OneInside(s: State, t: nat, u: nat)
    requires EnvLock.Inv(s) && t < |s.pc| && u < |s.pc|
    requires (s.pc[t].Inside? || s.pc[t].Open?) && s.pc[u].Inside?
    ensures t == u
  {
    assert Sel(Entry)(s.pc[t]) && Sel(Entry)(s.pc[u]);
    CountUnique(s.pc, Sel(Entry), t, u);
  }

  lemma WholeExtends<D>(ops: seq<Op<D>>, n: nat, d: D)
    requires n < |ops|
    ensures Whole(ops[..n + 1], d) == ops[n](Whole(ops[..n], d))
  {
    assert ops[..n + 1][..n] == ops[..n];
  }

  lemma LogExtends<D>(log: seq<seq<Op<D>>>, ops: seq<Op<D>>, d: D)
    ensures Atomically(log + [ops], d) == Whole(ops, Atomically(log, d))
  {
    assert (log + [ops])[..|log|] == log;
  }

  /** A statement that commutes with all of a section may be run before it. */
  lemma {:induction false} CommutesWithWhole<D(!new)>(op: Op<D>, ops: seq<Op<D>>, d: D)
    requires forall f | f in ops :: Commutes(op, f)
    ensures op(Whole(ops, d)) == Whole(ops, op(d))
    decreases |ops|
  {
    if ops != [] {
      var last := ops[|ops| - 1];
      assert last in ops && Commutes(op, last);
      CommutesWithWhole(op, ops[..|ops| - 1], d);
    }
  }

  lemma FireMovesOne(s: State, t: nat, prio: nat)
    requires |s.blk| == |s.sem| && Enabled(s, t, prio)
    ensures |Fire(s, t, prio).pc| == |s.pc| && Fire(s, t, prio).pc == s.pc[t := Fire(s, t, prio).pc[t]]
    ensures Fire(s, t, prio).pc[t].Inside? <==> s.pc[t].Open?
    ensures Entering(Fire(s, t, prio).pc[t]) ==> s.pc[t].Idle? || Entering(s.pc[t])
  {
  }

  lemma LockKeepsExplained<D(!new)>(s: System<D>, a: Act<D>, d0: D)
    requires Inv(s, d0) && CanAct(s, a) && a.Lock? && Typed(Do(s, a))
    ensures Explained(Do(s, a), d0)
  {
    var s' := Do(s, a);
    var t := a.t;
    FireMovesOne(s.lock, t, a.prio);
    if s.lock.pc[t].Inside? {
      assert s.body[t][..s.at[t]] == s.body[t];
      LogExtends(s.log, s.body[t], d0);
      forall u | 0 <= u < |s.at| && s.lock.pc[u].Inside? ensures u == t { OneInside(s.lock, t, u); }
    } else if s.lock.pc[t].Open? {
      forall u | 0 <= u < |s.at| ensures !s.lock.pc[u].Inside? {
        if s.lock.pc[u].Inside? { OneInside(s.lock, t, u); }
      }
      assert s'.body[t][..0] == [];
    } else {
      assert forall u | 0 <= u < |s.at| :: s'.lock.pc[u].Inside? <==> s.lock.pc[u].Inside?;
    }
  }

  lemma StatementKeepsExplained<D(!new)>(s: System<D>, a: Act<D>, d0: D)
    requires Inv(s, d0) && CanAct(s, a) && a.Statement? && Typed(Do(s, a))
    ensures Explained(Do(s, a), d0)
  {
    var t := a.t;
    WholeExtends(s.body[t], s.at[t], Atomically(s.log, d0));
    forall u | 0 <= u < |s.at| && s.lock.pc[u].Inside? ensures u == t { OneInside(s.lock, t, u); }
  }

  /** A statement outside is put before the section that is running. */
  lemma OutsideKeepsExplained<D(!new)>(s: System<D>, a: Act<D>, d0: D)
    requires Inv(s, d0) && CanAct(s, a) && a.Outside? && Typed(Do(s, a))
    ensures Explained(Do(s, a), d0)
  {
    var op := a.op;
    var d := Atomically(s.log, d0);
    LogExtends(s.log, [op], d0);
    assert [op][..0] == [];
    assert Whole([op], d) == op(d);
    forall t | 0 <= t < |s.at| && s.lock.pc[t].Inside?
      ensures op(s.data) == Whole(s.body[t][..s.at[t]], op(d))
    {
      CommutesWithWhole(op, s.body[t][..s.at[t]], d);
    }
  }

  lemma ActInv<D(!new)>(s: System<D>, a: Act<D>, d0: D)
    requires Inv(s, d0) && CanAct(s, a)
    ensures Inv(Do(s, a), d0)
  {
    match a
    case Lock(t, prio, _) =>
      EnvLock.StepInv(s.lock, t, prio);
      FireMovesOne(s.lock, t, prio);
      LockKeepsExplained(s, a, d0);
    case Statement(_) => StatementKeepsExplained(s, a, d0);
    case Outside(_, _) => OutsideKeepsExplained(s, a, d0);
  }

  /** Every act of the run can be done, one after the other. */
  ghost predicate Feasible<D(!new)>(s: System<D>, run: seq<Act<D>>)
    decreases |run|
  {
    Typed(s) && (run != [] ==> CanAct(s, run[0]) && Feasible(Do(s, run[0]), run[1..]))
  }

  ghost function Exec<D(!new)>(s: System<D>, run: seq<Act<D>>): (s': System<D>)
    requires Feasible(s, run)
    ensures Typed(s')
    decreases |run|
  {
    if run == [] then s else Exec(Do(s, run[0]), run[1..])
  }

  lemma {:induction false} RunInv<D(!new)>(s: System<D>, run: seq<Act<D>>, d0: D)
    requires Inv(s, d0) && Feasible(s, run)
    ensures Inv(Exec(s, run), d0)
    decreases |run|
  {
    if run != [] {
      ActInv(s, run[0], d0);
      RunInv(Do(s, run[0]), run[1..], d0);
    }
  }

  /** Sections are atomic: in every reachable state the data is what the sections that
      were completed, and the statements run outside, make of the initial data when
      each of them runs as a whole, in the order of the log; while a thread is inside,
      followed by the statements it has run so far and by nobody else's. */
  lemma SectionsAreAtomic<D(!new)>(s0: System<D>, run: seq<Act<D>>)
    requires Init(s0) && Feasible(s0, run)
    ensures Explained(Exec(s0, run), s0.data)
  {
    EnvLock.InitInv(s0.lock);
    RunInv(s0, run, s0.data);
  }
}
