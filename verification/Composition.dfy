/** The simulation together with its two index queues: the launchers take their
    indices from the queues and the missile tasks splice them back. The events of
    World ask that a launch finds its record free; here nobody looks at the record,
    as in the program, and that demand is proved. */
module Composition {
  import opened Options
  import opened Missiles
  import opened World
  import opened WorldScore
  import Q = IndexQueue

  /** The simulation, the lists of atk_gestor and def_gestor, the index that the
      attack launcher has fetched and not launched yet, and whether a launcher was
      ever given an index that is no free record: then two tasks would share one. */
  datatype System = System(w: World, atkQ: Q.Lists, defQ: Q.Lists, fetched: Option<int>, shared: bool)

  datatype Step =
    | Request                         // request_atk_launch accepts a launch
    | Fetch                           // get_next_index in atk_launcher
    | Launch(x: int)                  // launch_atk_missile with the fetched index
    | Reserve                         // request_def_index in def_launcher
    | Release(k: MissileType, i: nat) // clear_missile with splice_index, under one mutex
    | Other(e: Event)                 // any other event of World

  /** The event of World that a step performs, if any. */
  function Performs(s: System, st: Step): Option<Event> {
    match st
    case Launch(x) => if s.fetched.Some? && s.fetched.value >= 0 then Some(LaunchAtk(s.fetched.value, x)) else None
    case Reserve => if s.defQ.free != [] && s.defQ.free[0] >= 0 then Some(Acquire(s.defQ.free[0])) else None
    case Release(k, i) => Some(Clear(k, i))
    case Other(e) => Some(e)
    case _ => None
  }

  /** What the program checks before a step: nothing about the record of the index. */
  ghost predicate CanStep(p: Params, s: System, st: Step)
    requires Typed(p, s.w)
  {
    match st
    case Request => s.atkQ.free != []
    case Fetch => s.fetched.None? && s.atkQ.pending != []
    case Launch(x) => s.fetched.Some? && InBorders(p, AtkSpawn(p, x))
    case Reserve => s.w.launcher.Seeking? && s.defQ.free != []
    case Release(k, i) => i < p.n && s.w.Phases(k)[i].Done?
    case Other(e) => !e.LaunchAtk? && !e.Acquire? && !e.Clear? && Enabled(p, s.w, e)
  }

  /** Index i of type k is in its queue or in a launcher's hands. */
  predicate Unlaunched(s: System, k: MissileType, i: int) {
    if k.ATTACKER? then i in s.atkQ.free || i in s.atkQ.pending || s.fetched == Some(i)
    else i in s.defQ.free || (!s.w.launcher.Seeking? && s.w.launcher.t == i)
  }

  /** The queues and the launchers hold exactly the indices whose record is free,
      each of them once. */
  ghost predicate Linked(p: Params, s: System) {
    && Inv(p, s.w) && !s.shared
    && s.atkQ.Distinct(p.n) && s.defQ.Distinct(p.n) && s.defQ.pending == []
    && (s.fetched.Some? ==> Q.Unused(p.n, s.atkQ, s.fetched.value))
    && (!s.w.launcher.Seeking? ==> Q.Unused(p.n, s.defQ, s.w.launcher.t))
    && (forall k: MissileType, i | 0 <= i < p.n :: s.w.Phases(k)[i].Free? <==> Unlaunched(s, k, i))
  }

  ghost predicate Start(p: Params, s: System) {
    Init(p, s.w) && s.atkQ == Q.AllFree(p.n) && s.defQ == Q.AllFree(p.n) && s.fetched.None? && !s.shared
  }

  lemma StartLinked(p: Params, s: System)
    requires Sound(p) && Start(p, s)
    ensures Linked(p, s)
  {
    InitInv(p, s.w);
    forall k: MissileType, i | 0 <= i < p.n ensures s.w.Phases(k)[i].Free? && Unlaunched(s, k, i) {
      assert Q.AllFree(p.n).free[i] == i;
    }
  }

  /** Every index a launcher uses belongs to a free record: the demand that World
      makes of a launch is met in the composed system. */
  lemma LaunchesFindFreeRecords(p: Params, s: System, st: Step)
    requires Linked(p, s) && CanStep(p, s, st)
    ensures st.Launch? || st.Reserve? ==> Performs(s, st).Some?
    ensures Performs(s, st).Some? ==> Enabled(p, s.w, Performs(s, st).value)
  {
    match st
    case Launch(x) => assert Unlaunched(s, ATTACKER, s.fetched.value);
    case Reserve => assert Unlaunched(s, DEFENDER, s.defQ.free[0]);
    case _ =>
  }

  /** The world after a step. If the demand of World is not met, the world stays
      and the step is recorded as sharing a record. */
  ghost function WorldAfter(p: Params, s: System, st: Step): World
    requires Typed(p, s.w)
  {
    var e := Performs(s, st);
    if e.Some? && Enabled(p, s.w, e.value) then Next(p, s.w, e.value) else s.w
  }

  ghost predicate SharesRecord(p: Params, s: System, st: Step)
    requires Typed(p, s.w)
  {
    var e := Performs(s, st);
    (st.Launch? || st.Reserve?) && (e.None? || !Enabled(p, s.w, e.value))
  }

  /** The step: the queue operations of IndexQueue, and the event of World. It is
      taken under the program's own guards, whatever the queues hold. */
  ghost function Take(p: Params, s: System, st: Step): System
    requires Typed(p, s.w) && CanStep(p, s, st)
  {
    var s' := s.(w := WorldAfter(p, s, st), shared := s.shared || SharesRecord(p, s, st));
    match st
    case Request => s'.(atkQ := s.atkQ.Accept())
    case Fetch => s'.(atkQ := s.atkQ.TakePending(), fetched := Some(s.atkQ.pending[0]))
    case Launch(x) => s'.(fetched := None)
    case Reserve => s'.(defQ := s.defQ.TakeFree())
    case Release(k, i) =>
      if k.ATTACKER? then s'.(atkQ := s.atkQ.Splice(i)) else s'.(defQ := s.defQ.Splice(i))
    case Other(e) => s'
  }

  /** From a linked state the step performs its event. */
  lemma TakeWorld(p: Params, s: System, st: Step)
    requires Linked(p, s) && CanStep(p, s, st)
    ensures !SharesRecord(p, s, st)
    ensures Performs(s, st).Some? ==> Enabled(p, s.w, Performs(s, st).value)
    ensures WorldAfter(p, s, st) == if Performs(s, st).Some? then Next(p, s.w, Performs(s, st).value) else s.w
  {
    LaunchesFindFreeRecords(p, s, st);
  }

  /** Which records an event frees or occupies. */
  lemma EventFrees(p: Params, w: World, e: Event, k: MissileType, i: nat)
    requires Sound(p) && Inv(p, w) && Enabled(p, w, e) && i < p.n
    ensures Inv(p, Next(p, w, e))
    ensures var ph := Next(p, w, e).Phases(k)[i];
      ph.Free? <==>
        if k.ATTACKER? && (exists x :: e == LaunchAtk(i, x)) then false
        else if k.DEFENDER? && e.LaunchDef? && w.launcher.t == i then false
        else e == Clear(k, i) || w.Phases(k)[i].Free?
  {
    StepInv(p, w, e);
    if e.Update? { UpdatedPhase(p, w, e.k, e.i, e.hit, k, i); }
  }

  lemma EventLauncher(p: Params, w: World, e: Event)
    requires Sound(p) && Inv(p, w) && Enabled(p, w, e)
    ensures var l := Next(p, w, e).launcher;
      match e
      case Acquire(t) => l == Holding(t)
      case LaunchDef => l.Seeking?
      case Search(_, _) => !l.Seeking? && l.t == w.launcher.t
      case _ => l == w.launcher
  {
  }

  // ----- each step keeps the link -----

  lemma RequestLinked(p: Params, s: System)
    requires Linked(p, s) && CanStep(p, s, Request)
    ensures Linked(p, Take(p, s, Request))
  {
    var q := s.atkQ;
    Q.PoppedIsUnused(q, p.n);
    Q.AppendDistinct(q.TakeFree(), p.n, q.free[0]);
    var s' := Take(p, s, Request);
    forall i | 0 <= i < p.n ensures Unlaunched(s', ATTACKER, i) <==> Unlaunched(s, ATTACKER, i) {
      assert q.free == [q.free[0]] + q.free[1..];
    }
    forall k: MissileType, i | 0 <= i < p.n ensures s'.w.Phases(k)[i].Free? <==> Unlaunched(s', k, i) {
      assert s.w.Phases(k)[i].Free? <==> Unlaunched(s, k, i);
    }
  }

  lemma FetchLinked(p: Params, s: System)
    requires Linked(p, s) && CanStep(p, s, Fetch)
    ensures Linked(p, Take(p, s, Fetch))
  {
    var q := s.atkQ;
    var rest := q.pending[1..];
    assert forall i | 0 <= i < |rest| :: rest[i] == q.pending[i + 1];
    assert q.pending == [q.pending[0]] + rest;
    var s' := Take(p, s, Fetch);
    forall k: MissileType, i | 0 <= i < p.n ensures s'.w.Phases(k)[i].Free? <==> Unlaunched(s', k, i) {
      assert s.w.Phases(k)[i].Free? <==> Unlaunched(s, k, i);
    }
  }

  lemma LaunchLinked(p: Params, s: System, x: int)
    requires Sound(p) && Linked(p, s) && CanStep(p, s, Launch(x))
    ensures Linked(p, Take(p, s, Launch(x)))
  {
    var st := Launch(x);
    LaunchesFindFreeRecords(p, s, st);
    var e := Performs(s, st).value;
    var s' := Take(p, s, st);
    StepInv(p, s.w, e);
    EventLauncher(p, s.w, e);
    forall k: MissileType, i | 0 <= i < p.n ensures s'.w.Phases(k)[i].Free? <==> Unlaunched(s', k, i) {
      assert s.w.Phases(k)[i].Free? <==> Unlaunched(s, k, i);
      EventFrees(p, s.w, e, k, i);
      assert e == LaunchAtk(s.fetched.value, x);
    }
  }

  lemma AcquireLinked(p: Params, s: System)
    requires Sound(p) && Linked(p, s) && CanStep(p, s, Reserve)
    ensures Linked(p, Take(p, s, Reserve))
  {
    LaunchesFindFreeRecords(p, s, Reserve);
    var e := Performs(s, Reserve).value;
    var q := s.defQ;
    var s' := Take(p, s, Reserve);
    Q.PoppedIsUnused(q, p.n);
    assert q.free == [q.free[0]] + q.free[1..];
    StepInv(p, s.w, e);
    EventLauncher(p, s.w, e);
    forall k: MissileType, i | 0 <= i < p.n ensures s'.w.Phases(k)[i].Free? <==> Unlaunched(s', k, i) {
      assert s.w.Phases(k)[i].Free? <==> Unlaunched(s, k, i);
      EventFrees(p, s.w, e, k, i);
    }
  }

  lemma ReleaseLinked(p: Params, s: System, k: MissileType, i: nat)
    requires Sound(p) && Linked(p, s) && CanStep(p, s, Release(k, i))
    ensures Linked(p, Take(p, s, Release(k, i)))
  {
    var e := Clear(k, i);
    var s' := Take(p, s, Release(k, i));
    assert !Unlaunched(s, k, i) by { assert s.w.Phases(k)[i].Free? <==> Unlaunched(s, k, i); }
    if k.ATTACKER? { Q.SpliceDistinct(s.atkQ, p.n, i); } else { Q.SpliceDistinct(s.defQ, p.n, i); }
    StepInv(p, s.w, e);
    EventLauncher(p, s.w, e);
    forall kk: MissileType, j | 0 <= j < p.n ensures s'.w.Phases(kk)[j].Free? <==> Unlaunched(s', kk, j) {
      assert s.w.Phases(kk)[j].Free? <==> Unlaunched(s, kk, j);
      EventFrees(p, s.w, e, kk, j);
    }
  }

  lemma OtherLinked(p: Params, s: System, e: Event)
    requires Sound(p) && Linked(p, s) && CanStep(p, s, Other(e))
    ensures Linked(p, Take(p, s, Other(e)))
  {
    var s' := Take(p, s, Other(e));
    StepInv(p, s.w, e);
    EventLauncher(p, s.w, e);
    forall k: MissileType, i | 0 <= i < p.n ensures s'.w.Phases(k)[i].Free? <==> Unlaunched(s', k, i) {
      assert s.w.Phases(k)[i].Free? <==> Unlaunched(s, k, i);
      EventFrees(p, s.w, e, k, i);
    }
  }

  lemma StepLinked(p: Params, s: System, st: Step)
    requires Sound(p) && Linked(p, s) && CanStep(p, s, st)
    ensures Linked(p, Take(p, s, st))
  {
    match st
    case Request => RequestLinked(p, s);
    case Fetch => FetchLinked(p, s);
    case Launch(x) => LaunchLinked(p, s, x);
    case Reserve => AcquireLinked(p, s);
    case Release(k, i) => ReleaseLinked(p, s, k, i);
    case Other(e) => OtherLinked(p, s, e);
  }

  // ----- runs -----

  /** Every step of the run passes the program's guards, one after the other. */
  ghost predicate Runs(p: Params, s: System, run: seq<Step>)
    decreases |run|
  {
    Typed(p, s.w) &&
    (run != [] ==> CanStep(p, s, run[0]) && Runs(p, Take(p, s, run[0]), run[1..]))
  }

  ghost function Final(p: Params, s: System, run: seq<Step>): (s': System)
    requires Runs(p, s, run)
    ensures Typed(p, s'.w)
    decreases |run|
  {
    if run == [] then s else Final(p, Take(p, s, run[0]), run[1..])
  }

  /** The events of World that a run performs. */
  ghost function Trace(p: Params, s: System, run: seq<Step>): Run
    requires Runs(p, s, run)
    decreases |run|
  {
    if run == [] then []
    else
      (if Performs(s, run[0]).Some? then [Performs(s, run[0]).value] else [])
        + Trace(p, Take(p, s, run[0]), run[1..])
  }

  /** The link holds at the end of every run, with nothing but the guards assumed. */
  lemma {:induction false} RunLinked(p: Params, s: System, run: seq<Step>)
    requires Sound(p) && Linked(p, s) && Runs(p, s, run)
    ensures Linked(p, Final(p, s, run))
    decreases |run|
  {
    if run != [] {
      StepLinked(p, s, run[0]);
      RunLinked(p, Take(p, s, run[0]), run[1..]);
    }
  }

  lemma EventThenRun(p: Params, w: World, e: Event, rest: Run)
    requires Typed(p, w) && Enabled(p, w, e) && Feasible(p, Next(p, w, e), rest)
    ensures Feasible(p, w, [e] + rest)
    ensures Exec(p, w, [e] + rest) == Exec(p, Next(p, w, e), rest)
  {
    var run := [e] + rest;
    assert run[0] == e && run[1..] == rest;
  }

  /** The rest of a run is a run of World, so the whole run is one. */
  lemma StepThenTrace(p: Params, s: System, run: seq<Step>)
    requires Linked(p, s) && run != [] && Runs(p, s, run)
    requires var s' := Take(p, s, run[0]);
      && Feasible(p, s'.w, Trace(p, s', run[1..]))
      && Exec(p, s'.w, Trace(p, s', run[1..])) == Final(p, s', run[1..]).w
    ensures Feasible(p, s.w, Trace(p, s, run))
    ensures Exec(p, s.w, Trace(p, s, run)) == Final(p, s, run).w
  {
    var s' := Take(p, s, run[0]);
    TakeWorld(p, s, run[0]);
    assert s'.w == WorldAfter(p, s, run[0]);
    if Performs(s, run[0]).Some? {
      EventThenRun(p, s.w, Performs(s, run[0]).value, Trace(p, s', run[1..]));
    } else {
      assert Trace(p, s, run) == [] + Trace(p, s', run[1..]) == Trace(p, s', run[1..]);
    }
  }

  lemma {:induction false} LinkedRefines(p: Params, s: System, run: seq<Step>)
    requires Sound(p) && Linked(p, s) && Runs(p, s, run)
    ensures Feasible(p, s.w, Trace(p, s, run))
    ensures Exec(p, s.w, Trace(p, s, run)) == Final(p, s, run).w
    decreases |run|
  {
    if run != [] {
      StepLinked(p, s, run[0]);
      LinkedRefines(p, Take(p, s, run[0]), run[1..]);
      StepThenTrace(p, s, run);
    }
  }

  /** Every run of the composed system under the program's guards is a run of World,
      so everything proved of the runs of World holds of it. */
  lemma CompositionRefines(p: Params, s: System, run: seq<Step>)
    requires Sound(p) && Start(p, s) && Runs(p, s, run)
    ensures Feasible(p, s.w, Trace(p, s, run))
    ensures Exec(p, s.w, Trace(p, s, run)) == Final(p, s, run).w
  {
    StartLinked(p, s);
    LinkedRefines(p, s, run);
  }

  lemma StepThenRun(p: Params, s: System, st: Step, rest: seq<Step>)
    requires Typed(p, s.w) && CanStep(p, s, st) && Runs(p, Take(p, s, st), rest)
    ensures Runs(p, s, [st] + rest)
  {
    var run := [st] + rest;
    assert run[0] == st && run[1..] == rest;
  }

  /** A step whose guard holds at the end of a run extends it: that the state keeps
      its sizes is no further demand. */
  lemma {:induction false} RunExtends(p: Params, s: System, run: seq<Step>, st: Step)
    requires Sound(p) && Linked(p, s) && Runs(p, s, run) && CanStep(p, Final(p, s, run), st)
    ensures Runs(p, s, run + [st])
    decreases |run|
  {
    StepLinked(p, s, if run == [] then st else run[0]);
    if run == [] {
      StepThenRun(p, s, st, []);
      assert run + [st] == [st] + [];
    } else {
      RunExtends(p, Take(p, s, run[0]), run[1..], st);
      StepThenRun(p, s, run[0], run[1..] + [st]);
      assert run + [st] == [run[0]] + (run[1..] + [st]);
    }
  }

  /** In every run under the program's guards: no launcher is ever given a record in
      use, an index is in its queue or in a launcher's hands exactly while its record
      is free, each queue holds it once, the scores are bounded by the launches, and
      no cell outlives its missile. */
  lemma ComposedRunsAreSafe(p: Params, s: System, run: seq<Step>, k: MissileType, i: nat)
    requires Sound(p) && Start(p, s) && Runs(p, s, run) && i < p.n
    ensures var s' := Final(p, s, run);
      && !s'.shared
      && (s'.w.Phases(k)[i].Free? <==> Unlaunched(s', k, i))
      && s'.atkQ.Distinct(p.n) && s'.defQ.Distinct(p.n)
      && s'.w.mem.atkPoints + s'.w.mem.defPoints <= s'.w.atkLaunched
      && s'.w.mem.defPoints <= s'.w.defLaunched
      && NoGhosts(s'.w)
  {
    StartLinked(p, s);
    RunLinked(p, s, run);
    CompositionRefines(p, s, run);
    ScoreBound(p, s.w, Trace(p, s, run));
  }

  // ----- what the queues do for the simulation -----

  lemma RequestStep(p: Params, s: System)
    requires Sound(p) && Linked(p, s) && s.atkQ.free != [] && s.atkQ.pending == []
    ensures CanStep(p, s, Request) && Linked(p, Take(p, s, Request))
    ensures Take(p, s, Request) == s.(atkQ := Q.Lists(s.atkQ.free[1..], [s.atkQ.free[0]]))
  {
    StepLinked(p, s, Request);
  }

  lemma FetchStep(p: Params, s: System, i: int)
    requires Sound(p) && Linked(p, s) && s.atkQ.pending == [i] && s.fetched.None?
    ensures CanStep(p, s, Fetch) && Linked(p, Take(p, s, Fetch))
    ensures Take(p, s, Fetch) == s.(atkQ := Q.Lists(s.atkQ.free, []), fetched := Some(i))
  {
    StepLinked(p, s, Fetch);
  }

  /** The launched missile is in its loop, at its spawn position, unassigned, and no other
      record has changed. */
  ghost predicate Launched(p: Params, w: World, w': World, i: int, x: int) {
    && 0 <= i < |w.atkPhase| == |w.mem.atk|
    && w'.atkPhase == w.atkPhase[i := Loop(false)]
    && w'.mem == w.mem.(atk := w.mem.atk[i := Missile(Pos(x, p.thick + p.span + 1), i, false, -1, ATTACKER)])
  }

  lemma LaunchStep(p: Params, s: System, i: int, x: int)
    requires Sound(p) && Linked(p, s) && s.fetched == Some(i)
    requires 0 <= x < p.xwin && 0 <= p.thick + p.span + 1 < p.ywin
    ensures CanStep(p, s, Launch(x)) && 0 <= i < p.n && s.w.atkPhase[i].Free?
    ensures var s' := Take(p, s, Launch(x));
      && Linked(p, s') && s'.atkQ == s.atkQ && s'.fetched.None? && Launched(p, s.w, s'.w, i, x)
  {
    assert CanStep(p, s, Launch(x));
    TakeWorld(p, s, Launch(x));
    StepLinked(p, s, Launch(x));
  }

  /** A launch request is served: the request, the fetch and the launch give a missile
      under the index that was the top free one. */
  lemma LaunchServed(p: Params, s: System, x: int)
    requires Sound(p) && Linked(p, s)
    requires s.atkQ.free != [] && s.atkQ.pending == [] && s.fetched.None?
    requires 0 <= x < p.xwin && 0 <= p.thick + p.span + 1 < p.ywin
    ensures Runs(p, s, [Request] + ([Fetch] + ([Launch(x)] + [])))
    ensures var i := s.atkQ.free[0]; var s' := Final(p, s, [Request] + ([Fetch] + ([Launch(x)] + [])));
      && 0 <= i < p.n && s.w.atkPhase[i].Free? && Launched(p, s.w, s'.w, i, x)
      && s'.atkQ == Q.Lists(s.atkQ.free[1..], []) && s'.fetched.None? && !s'.shared
  {
    RequestStep(p, s);
    var s1 := Take(p, s, Request);
    FetchStep(p, s1, s.atkQ.free[0]);
    var s2 := Take(p, s1, Fetch);
    LaunchStep(p, s2, s.atkQ.free[0], x);
    ConsRun(p, s2, Launch(x), []);
    ConsRun(p, s1, Fetch, [Launch(x)] + []);
    ConsRun(p, s, Request, [Fetch] + ([Launch(x)] + []));
  }

  lemma ConsRun(p: Params, s: System, st: Step, rest: seq<Step>)
    requires Typed(p, s.w) && CanStep(p, s, st) && Runs(p, Take(p, s, st), rest)
    ensures Runs(p, s, [st] + rest) && Final(p, s, [st] + rest) == Final(p, Take(p, s, st), rest)
  {
    StepThenRun(p, s, st, rest);
    assert ([st] + rest)[1..] == rest;
  }

  /** A released index is the next one to be given out, and its record is empty: it has
      neither an index nor a target. */
  lemma ReleaseRecycles(p: Params, s: System, k: MissileType, i: nat)
    requires Sound(p) && Linked(p, s) && CanStep(p, s, Release(k, i))
    ensures var s' := Take(p, s, Release(k, i));
      && (if k.ATTACKER? then s'.atkQ.free == [i] + s.atkQ.free else s'.defQ.free == [i] + s.defQ.free)
      && |s'.w.mem.Queue(k)| == p.n && |s'.w.Phases(k)| == p.n && s'.w.Phases(k)[i].Free?
      && s'.w.mem.Queue(k)[i] == Missile(Pos(0, 0), -1, false, -1, s.w.mem.Queue(k)[i].mtype)
  {
    StepLinked(p, s, Release(k, i));
    TakeWorld(p, s, Release(k, i));
  }

  /** A launcher that asks for a defender's index gets the top free one. */
  lemma ReserveServed(p: Params, s: System)
    requires Sound(p) && Linked(p, s) && CanStep(p, s, Reserve)
    ensures s.defQ.free != []
    ensures var s' := Take(p, s, Reserve);
      s'.w == s.w.(launcher := Holding(s.defQ.free[0])) && s'.defQ.free == s.defQ.free[1..]
  {
    StepLinked(p, s, Reserve);
    TakeWorld(p, s, Reserve);
  }
}
