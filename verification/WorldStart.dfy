/** The start columns that defenders compute do no harm: only the columns drawn for
    attackers need a hypothesis. */
module WorldStart {
  import opened Options
  import opened Missiles
  import opened World
  import opened WorldScore
  import opened WorldLayout
  import opened Interception

  /** The positions at which a scan can find target t, with t. */
  ghost function Labels(m: Memory): set<(int, Pos)> {
    set q | q in m.cell && m.cell[q].target >= 0 :: (m.cell[q].target, q)
  }

  /** What scan_env_for_target_pos returns is such a position. */
  lemma ScanReturnsLabel(m: Memory, t: nat, r: Pos)
    requires ScanFinds(m, t, r) && r != Pos(NONE, NONE)
    ensures (t, r) in Labels(m)
  {
  }

  /** Every start column of the run is computed from two positions that the defender's
      scans found, in any earlier states. `seen` is what there was to find so far. */
  ghost predicate StartsComputed(p: Params, w: World, run: Run, seen: set<(int, Pos)>)
    requires Feasible(p, w, run)
    decreases |run|
  {
    var now := seen + Labels(w.mem);
    run != [] ==>
      && (run[0].Aim? ==> exists a, b :: (run[0].i, a) in now && (run[0].i, b) in now && Computed(p, a, b, run[0].x))
      && StartsComputed(p, Next(p, w, run[0]), run[1..], now)
  }

  /** Only a missile cell has a value or a target. */
  ghost predicate PlainCells(cell: map<Pos, Cell>) {
    forall q | q in cell && !IsMissileType(cell[q].ctype) :: cell[q].value < 0 && cell[q].target < 0
  }

  lemma StepKeepsPlain(p: Params, w: World, e: Event, q: Pos)
    requires Inv(p, w) && PlainCells(w.mem.cell) && Enabled(p, w, e)
    requires q in w.mem.cell && q in Next(p, w, e).mem.cell && !IsMissileType(Next(p, w, e).mem.cell[q].ctype)
    ensures Next(p, w, e).mem.cell[q].value < 0 && Next(p, w, e).mem.cell[q].target < 0
  {
    if e.Update? {
      UpdatedPhase(p, w, e.k, e.i, e.hit, e.k, e.i);
      UpdatedCell(p, w, e.k, e.i, e.hit, q);
    }
  }

  /** A position with a target is that of a placed missile, and inside. */
  lemma LabelsInside(p: Params, w: World)
    requires Inv(p, w) && AllInside(p, w) && PlainCells(w.mem.cell)
    ensures forall l | l in Labels(w.mem) :: Inside(p, l.1)
  {
    forall l | l in Labels(w.mem) ensures Inside(p, l.1) {
      var c := w.mem.cell[l.1];
      assert IsMissileType(c.ctype);
      var k := TypeOfCell(c.ctype);
      assert Owns(w, k, c.value, l.1);
      assert PlacedInside(p, w.mem.Queue(k)[c.value], w.Phases(k)[c.value]);
    }
  }

  /** An event whose spawn is clear erases no wall or goal cell. */
  lemma WaitClearErasesNothing(p: Params, w: World, e: Event)
    requires Inv(p, w) && AllWaitClear(p, w) && Enabled(p, w, e)
    ensures !ErasesStatic(p, w, e)
  {
    if e.Update? {
      assert WaitsClear(p, w.mem.Queue(e.k)[e.i], w.Phases(e.k)[e.i]);
    }
  }

  /** The state that the induction carries along. */
  ghost predicate Orderly(p: Params, w: World) {
    Inv(p, w) && LayoutIntact(p, w.mem.cell) && AllInside(p, w) && AllWaitClear(p, w) && PlainCells(w.mem.cell)
  }

  lemma StepKeepsOrder(p: Params, w: World, e: Event)
    requires Sound(p) && Orderly(p, w) && Enabled(p, w, e) && SpawnClear(p, e)
    ensures !ErasesStatic(p, w, e) && Orderly(p, Next(p, w, e))
  {
    var w' := Next(p, w, e);
    WaitClearErasesNothing(p, w, e);
    StepKeepsLayout(p, w, e);
    StepKeepsWaitClear(p, w, e);
    forall q | q in w'.mem.cell && !IsMissileType(w'.mem.cell[q].ctype)
      ensures w'.mem.cell[q].value < 0 && w'.mem.cell[q].target < 0
    {
      StepKeepsPlain(p, w, e, q);
    }
  }

  lemma {:induction false} OrderlyRun(p: Params, w: World, run: Run, seen: set<(int, Pos)>)
    requires Sound(p) && LimitsClear(p) && Orderly(p, w) && Feasible(p, w, run)
    requires forall e | e in run && e.LaunchAtk? :: SpawnClear(p, e)
    requires (forall l | l in seen :: Inside(p, l.1)) && StartsComputed(p, w, run, seen)
    ensures SpawnsHarmless(p, w, run)
    decreases |run|
  {
    if run != [] {
      var e, now := run[0], seen + Labels(w.mem);
      LabelsInside(p, w);
      if e.Aim? {
        var a, b :| (e.i, a) in now && (e.i, b) in now && Computed(p, a, b, e.x);
        ComputedClear(p, a, b, e.x);
      }
      StepKeepsOrder(p, w, e);
      OrderlyRun(p, Next(p, w, e), run[1..], now);
    }
  }

  /** If attackers are drawn in clear columns, and every defender that starts has found
      its target in both of its scans, no run changes a wall or goal cell: the columns
      that get_start_x_position computes are clear by themselves. */
  lemma ComputedStartsHarmless(p: Params, w0: World, run: Run)
    requires Sound(p) && LimitsClear(p) && Init(p, w0) && Feasible(p, w0, run)
    requires forall e | e in run && e.LaunchAtk? :: SpawnClear(p, e)
    requires StartsComputed(p, w0, run, {})
    ensures SpawnsHarmless(p, w0, run) && StaticKept(p, Exec(p, w0, run).mem.cell)
  {
    InitInv(p, w0);
    OrderlyRun(p, w0, run, {});
    LayoutIntactIff(p, w0, run);
  }
}
