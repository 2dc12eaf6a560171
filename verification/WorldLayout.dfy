/** The walls and the goal never change, and missiles stay inside them. */
module WorldLayout {
  import opened Options
  import opened Missiles
  import opened World
  import opened WorldScore
  import opened WorldAccess

  /** The wall and goal cells are as init_env left them, and no other cell looks
      like one. */
  ghost predicate LayoutIntact(p: Params, cell: map<Pos, Cell>) {
    forall q | q in cell && (Static(p, q) || cell[q].ctype == WALL || cell[q].ctype == GOAL) ::
      Static(p, q) && cell[q] == InitCell(p, q)
  }

  /** A missile that has been placed is inside. */
  predicate PlacedInside(p: Params, r: Missile, ph: Phase) {
    Active(ph) && ph.placed ==> Inside(p, Committed(r, ph))
  }

  ghost predicate AllInside(p: Params, w: World)
    requires Typed(p, w)
  {
    forall k: MissileType, i | 0 <= i < p.n :: PlacedInside(p, w.mem.Queue(k)[i], w.Phases(k)[i])
  }

  /** The event is the first update of a missile that spawned on a wall or goal cell. */
  predicate ErasesStatic(p: Params, w: World, e: Event) {
    && e.Update? && e.i < |w.Phases(e.k)| && w.Phases(e.k)[e.i].Moved?
    && !w.Phases(e.k)[e.i].placed && Static(p, w.Phases(e.k)[e.i].from)
  }

  /** A scan that finds nothing proves that the position is inside: around every
      position that is not, the clamped box holds a wall or a goal cell. */
  lemma CleanScanMeansInside(p: Params, cell: map<Pos, Cell>, centre: Pos, k: MissileType, i: int)
    requires Sound(p) && cell.Keys == Grid(p) && LayoutIntact(p, cell) && i >= 0
    requires InBorders(p, centre) && FirstHit(cell, BoxAround(p, centre), k, i, None)
    ensures Inside(p, centre)
  {
    var b := BoxAround(p, centre);
    var left, right := Pos(b.xa, centre.y), Pos(b.xb - 1, centre.y);
    var top, bottom := Pos(centre.x, b.ya), Pos(centre.x, b.yb - 1);
    assert InBox(b, left) && InBox(b, right) && InBox(b, top) && InBox(b, bottom);
    assert left in cell && right in cell && top in cell && bottom in cell;
    assert !Static(p, left) && !Static(p, right) && !Static(p, top) && !Static(p, bottom);
  }

  /** An update of a missile whose old cell is no wall or goal keeps the layout. */
  lemma UpdateKeepsLayout(p: Params, w: World, k: MissileType, i: nat, hit: Option<Pos>)
    requires Sound(p) && Inv(p, w) && Enabled(p, w, Update(k, i, hit))
    requires LayoutIntact(p, w.mem.cell) && !Static(p, w.Phases(k)[i].from)
    ensures var w' := Next(p, w, Update(k, i, hit));
      && w'.mem.cell.Keys == w.mem.cell.Keys
      && LayoutIntact(p, w'.mem.cell)
  {
    var w' := Next(p, w, Update(k, i, hit));
    var r := w.mem.Queue(k)[i];
    var from := w.Phases(k)[i].from;
    assert SlotOk(p, k, i, r, w.Phases(k)[i]);
    UpdatedCell(p, w, k, i, hit, from);
    if !r.deleted && hit.None? && InBorders(p, r.pos) { PlacingInside(p, w, k, i); }
    forall q | q in w'.mem.cell && (Static(p, q) || w'.mem.cell[q].ctype == WALL || w'.mem.cell[q].ctype == GOAL)
      ensures Static(p, q) && w'.mem.cell[q] == InitCell(p, q)
    {
      UpdatedCell(p, w, k, i, hit, q);
    }
  }

  /** A missile that an update places is inside. */
  lemma PlacingInside(p: Params, w: World, k: MissileType, i: nat)
    requires Sound(p) && Inv(p, w) && Enabled(p, w, Update(k, i, None))
    requires LayoutIntact(p, w.mem.cell) && !Static(p, w.Phases(k)[i].from)
    requires !UpdateCollides(p, w.mem, k, i, None)
    ensures Inside(p, w.mem.Queue(k)[i].pos)
  {
    var r := w.mem.Queue(k)[i];
    var from := w.Phases(k)[i].from;
    assert SlotOk(p, k, i, r, w.Phases(k)[i]);
    var cell := Erase(w.mem, from).cell;
    assert cell.Keys == Grid(p);
    assert LayoutIntact(p, cell);
    CleanScanMeansInside(p, cell, r.pos, k, i);
  }

  lemma UpdateKeepsInside(p: Params, w: World, k: MissileType, i: nat, hit: Option<Pos>, kk: MissileType, j: nat)
    requires Sound(p) && Inv(p, w) && Enabled(p, w, Update(k, i, hit)) && j < p.n
    requires LayoutIntact(p, w.mem.cell) && !Static(p, w.Phases(k)[i].from)
    requires PlacedInside(p, w.mem.Queue(kk)[j], w.Phases(kk)[j])
    ensures var w' := Next(p, w, Update(k, i, hit));
      && |w'.mem.Queue(kk)| == p.n && |w'.Phases(kk)| == p.n
      && PlacedInside(p, w'.mem.Queue(kk)[j], w'.Phases(kk)[j])
  {
    UpdatedRecord(p, w, k, i, hit, kk, j);
    UpdatedPhase(p, w, k, i, hit, kk, j);
    if !UpdateCollides(p, w.mem, k, i, hit) { PlacingInside(p, w, k, i); }
  }

  /** Spawning anywhere in the window places nothing. */
  lemma RecordStepKeepsInside(p: Params, w: World, e: Event, kk: MissileType, j: nat)
    requires Inv(p, w) && Enabled(p, w, e) && !e.Update? && j < p.n
    requires PlacedInside(p, w.mem.Queue(kk)[j], w.Phases(kk)[j])
    ensures var w' := Next(p, w, e);
      && |w'.mem.Queue(kk)| == p.n && |w'.Phases(kk)| == p.n
      && PlacedInside(p, w'.mem.Queue(kk)[j], w'.Phases(kk)[j])
  {
  }

  /** Searches relabel a missile cell; nothing else but an update writes the grid. */
  lemma RecordStepKeepsLayout(p: Params, w: World, e: Event)
    requires Inv(p, w) && Enabled(p, w, e) && !e.Update? && LayoutIntact(p, w.mem.cell)
    ensures LayoutIntact(p, Next(p, w, e).mem.cell)
  {
  }

  /** The mover's old cell is no wall or goal, unless it is a bad spawn cell. */
  lemma MoverNotStatic(p: Params, w: World, e: Event)
    requires Sound(p) && Inv(p, w) && AllInside(p, w) && Enabled(p, w, e) && e.Update? && !ErasesStatic(p, w, e)
    ensures !Static(p, w.Phases(e.k)[e.i].from)
  {
    assert SlotOk(p, e.k, e.i, w.mem.Queue(e.k)[e.i], w.Phases(e.k)[e.i]);
    assert PlacedInside(p, w.mem.Queue(e.k)[e.i], w.Phases(e.k)[e.i]);
  }

  lemma StepKeepsLayout(p: Params, w: World, e: Event)
    requires Sound(p) && Inv(p, w) && Enabled(p, w, e) && !ErasesStatic(p, w, e)
    requires LayoutIntact(p, w.mem.cell) && AllInside(p, w)
    ensures var w' := Next(p, w, e);
      Inv(p, w') && LayoutIntact(p, w'.mem.cell) && AllInside(p, w')
  {
    var w' := Next(p, w, e);
    StepInv(p, w, e);
    if e.Update? {
      MoverNotStatic(p, w, e);
      UpdateKeepsLayout(p, w, e.k, e.i, e.hit);
    } else {
      RecordStepKeepsLayout(p, w, e);
    }
    forall k: MissileType, i | 0 <= i < p.n ensures PlacedInside(p, w'.mem.Queue(k)[i], w'.Phases(k)[i]) {
      assert PlacedInside(p, w.mem.Queue(k)[i], w.Phases(k)[i]);
      if e.Update? {
        UpdateKeepsInside(p, w, e.k, e.i, e.hit, k, i);
      } else {
        RecordStepKeepsInside(p, w, e, k, i);
      }
    }
  }

  /** No event of the run is the first update of a missile that spawned on a wall
      or goal cell. */
  ghost predicate SpawnsHarmless(p: Params, w: World, run: Run)
    requires Feasible(p, w, run)
    decreases |run|
  {
    run != [] ==> !ErasesStatic(p, w, run[0]) && SpawnsHarmless(p, Next(p, w, run[0]), run[1..])
  }

  lemma {:induction false} RunKeepsLayout(p: Params, w: World, run: Run)
    requires Sound(p) && Inv(p, w) && Feasible(p, w, run) && SpawnsHarmless(p, w, run)
    requires LayoutIntact(p, w.mem.cell) && AllInside(p, w)
    ensures var w' := Exec(p, w, run);
      Inv(p, w') && LayoutIntact(p, w'.mem.cell) && AllInside(p, w')
    decreases |run|
  {
    if run != [] {
      StepKeepsLayout(p, w, run[0]);
      RunKeepsLayout(p, Next(p, w, run[0]), run[1..]);
    }
  }

  /** Interior invariant: if no first update erases a wall or goal cell, every placed
      missile, and every missile cell, is inside. */
  lemma MissilesStayInside(p: Params, w0: World, run: Run)
    requires Sound(p) && Init(p, w0) && Feasible(p, w0, run) && SpawnsHarmless(p, w0, run)
    ensures var w := Exec(p, w0, run);
      && (forall q | q in w.mem.cell && IsMissileType(w.mem.cell[q].ctype) :: Inside(p, q))
      && (forall k: MissileType, i | 0 <= i < p.n && Active(w.Phases(k)[i]) && w.Phases(k)[i].placed ::
            Inside(p, Committed(w.mem.Queue(k)[i], w.Phases(k)[i])))
  {
    InitInv(p, w0);
    RunKeepsLayout(p, w0, run);
    var w := Exec(p, w0, run);
    forall q | q in w.mem.cell && IsMissileType(w.mem.cell[q].ctype) ensures Inside(p, q) {
      var k := TypeOfCell(w.mem.cell[q].ctype);
      assert Owns(w, k, w.mem.cell[q].value, q);
      assert PlacedInside(p, w.mem.Queue(k)[w.mem.cell[q].value], w.Phases(k)[w.mem.cell[q].value]);
    }
  }

  // ----- a damaged layout stays damaged -----

  predicate LooksStatic(c: Cell) {
    c.ctype == WALL || c.ctype == GOAL
  }

  /** Every cell that looks like a wall or goal cell is as init_env left it. */
  ghost predicate NoForgedCells(p: Params, cell: map<Pos, Cell>) {
    forall q | q in cell && LooksStatic(cell[q]) :: Static(p, q) && cell[q] == InitCell(p, q)
  }

  /** No event turns a cell into a wall or goal cell, or changes one that stays one. */
  lemma NoEventBuilds(p: Params, w: World, e: Event, q: Pos)
    requires Sound(p) && Inv(p, w) && NoForgedCells(p, w.mem.cell) && Enabled(p, w, e) && q in w.mem.cell
    ensures var cell' := Next(p, w, e).mem.cell;
      q in cell' && (LooksStatic(cell'[q]) ==> cell'[q] == w.mem.cell[q])
  {
    match e
    case Update(k, i, hit) =>
      UpdatedPhase(p, w, k, i, hit, k, i);
      UpdatedCell(p, w, k, i, hit, q);
    case Search(red, found) =>
      assert LooksStatic(w.mem.cell[q]) ==> w.mem.cell[q] == InitCell(p, q);
    case _ =>
  }

  lemma StepForgesNothing(p: Params, w: World, e: Event)
    requires Sound(p) && Inv(p, w) && NoForgedCells(p, w.mem.cell) && Enabled(p, w, e)
    ensures Inv(p, Next(p, w, e)) && NoForgedCells(p, Next(p, w, e).mem.cell)
  {
    var w' := Next(p, w, e);
    StepInv(p, w, e);
    forall c | c in w'.mem.cell && LooksStatic(w'.mem.cell[c])
      ensures Static(p, c) && w'.mem.cell[c] == InitCell(p, c)
    {
      assert c in w.mem.cell;
      NoEventBuilds(p, w, e, c);
    }
  }

  lemma {:induction false} DamageStays(p: Params, w: World, run: Run, q: Pos)
    requires Sound(p) && Inv(p, w) && NoForgedCells(p, w.mem.cell) && Feasible(p, w, run)
    requires q in w.mem.cell && Static(p, q) && !LooksStatic(w.mem.cell[q])
    ensures !LayoutIntact(p, Exec(p, w, run).mem.cell)
    decreases |run|
  {
    if run != [] {
      StepForgesNothing(p, w, run[0]);
      NoEventBuilds(p, w, run[0], q);
      DamageStays(p, Next(p, w, run[0]), run[1..], q);
    }
  }

  /** The program erases the spawn cell without looking at it (line 565), whatever
      the scan finds then. */
  lemma ErasingDamages(p: Params, w: World, e: Event)
    requires Sound(p) && Inv(p, w) && Enabled(p, w, e) && ErasesStatic(p, w, e)
    ensures var from := w.Phases(e.k)[e.i].from; var cell' := Next(p, w, e).mem.cell;
      from in cell' && Static(p, from) && !LooksStatic(cell'[from])
  {
    assert SlotOk(p, e.k, e.i, w.mem.Queue(e.k)[e.i], w.Phases(e.k)[e.i]);
    UpdatedPhase(p, w, e.k, e.i, e.hit, e.k, e.i);
    UpdatedCell(p, w, e.k, e.i, e.hit, w.Phases(e.k)[e.i].from);
  }

  lemma {:induction false} HarmfulRunDamages(p: Params, w: World, run: Run)
    requires Sound(p) && Inv(p, w) && NoForgedCells(p, w.mem.cell) && Feasible(p, w, run)
    requires !SpawnsHarmless(p, w, run)
    ensures !LayoutIntact(p, Exec(p, w, run).mem.cell)
    decreases |run|
  {
    var e, w' := run[0], Next(p, w, run[0]);
    StepForgesNothing(p, w, e);
    if ErasesStatic(p, w, e) {
      ErasingDamages(p, w, e);
      DamageStays(p, w', run[1..], w.Phases(e.k)[e.i].from);
    } else {
      HarmfulRunDamages(p, w', run[1..]);
    }
  }

  /** Every wall and goal cell is as init_env left it. */
  ghost predicate StaticKept(p: Params, cell: map<Pos, Cell>) {
    forall q | InBorders(p, q) && Static(p, q) :: q in cell && cell[q] == InitCell(p, q)
  }

  /** Exactly when a run leaves the static layout as init_env built it: when no
      event of the run is the first update of a missile that spawned on a wall or
      goal cell. Such an update damages the layout for good. */
  lemma LayoutIntactIff(p: Params, w0: World, run: Run)
    requires Sound(p) && Init(p, w0) && Feasible(p, w0, run)
    ensures StaticKept(p, Exec(p, w0, run).mem.cell) <==> SpawnsHarmless(p, w0, run)
  {
    InitInv(p, w0);
    var cell := Exec(p, w0, run).mem.cell;
    if SpawnsHarmless(p, w0, run) {
      RunKeepsLayout(p, w0, run);
    } else {
      HarmfulRunDamages(p, w0, run);
      RunForgesNothing(p, w0, run);
      assert StaticKept(p, cell) ==> LayoutIntact(p, cell);
    }
  }

  lemma {:induction false} RunForgesNothing(p: Params, w: World, run: Run)
    requires Sound(p) && Inv(p, w) && NoForgedCells(p, w.mem.cell) && Feasible(p, w, run)
    ensures Typed(p, Exec(p, w, run)) && NoForgedCells(p, Exec(p, w, run).mem.cell)
    decreases |run|
  {
    if run != [] {
      StepForgesNothing(p, w, run[0]);
      RunForgesNothing(p, Next(p, w, run[0]), run[1..]);
    }
  }

  // ----- spawns that cannot harm -----

  /** The launched or aimed missile stands on no wall or goal cell. */
  predicate SpawnClear(p: Params, e: Event) {
    match e
    case LaunchAtk(_, x) => !Static(p, AtkSpawn(p, x))
    case Aim(_, x) => !Static(p, DefSpawn(p, x))
    case _ => true
  }

  /** A missile that has yet to be placed stands on no wall or goal cell. */
  predicate WaitsClear(p: Params, r: Missile, ph: Phase) {
    Active(ph) && !ph.placed ==> !Static(p, Committed(r, ph))
  }

  ghost predicate AllWaitClear(p: Params, w: World)
    requires Typed(p, w)
  {
    forall k: MissileType, i | 0 <= i < p.n :: WaitsClear(p, w.mem.Queue(k)[i], w.Phases(k)[i])
  }

  lemma UpdateKeepsWaitClear(p: Params, w: World, k: MissileType, i: nat, hit: Option<Pos>, kk: MissileType, j: nat)
    requires Inv(p, w) && Enabled(p, w, Update(k, i, hit)) && j < p.n
    requires WaitsClear(p, w.mem.Queue(kk)[j], w.Phases(kk)[j])
    ensures var w' := Next(p, w, Update(k, i, hit));
      && |w'.mem.Queue(kk)| == p.n && |w'.Phases(kk)| == p.n
      && WaitsClear(p, w'.mem.Queue(kk)[j], w'.Phases(kk)[j])
  {
    UpdatedPhase(p, w, k, i, hit, kk, j);
    UpdatedRecord(p, w, k, i, hit, kk, j);
  }

  lemma RecordStepKeepsWaitClear(p: Params, w: World, e: Event, kk: MissileType, j: nat)
    requires Inv(p, w) && Enabled(p, w, e) && !e.Update? && SpawnClear(p, e) && j < p.n
    requires WaitsClear(p, w.mem.Queue(kk)[j], w.Phases(kk)[j])
    ensures var w' := Next(p, w, e);
      && |w'.mem.Queue(kk)| == p.n && |w'.Phases(kk)| == p.n
      && WaitsClear(p, w'.mem.Queue(kk)[j], w'.Phases(kk)[j])
  {
  }

  lemma StepKeepsWaitClear(p: Params, w: World, e: Event)
    requires Sound(p) && Inv(p, w) && AllWaitClear(p, w) && Enabled(p, w, e) && SpawnClear(p, e)
    ensures Inv(p, Next(p, w, e)) && AllWaitClear(p, Next(p, w, e))
  {
    var w' := Next(p, w, e);
    StepInv(p, w, e);
    forall k: MissileType, i | 0 <= i < p.n ensures WaitsClear(p, w'.mem.Queue(k)[i], w'.Phases(k)[i]) {
      assert WaitsClear(p, w.mem.Queue(k)[i], w.Phases(k)[i]);
      if e.Update? {
        UpdateKeepsWaitClear(p, w, e.k, e.i, e.hit, k, i);
      } else {
        RecordStepKeepsWaitClear(p, w, e, k, i);
      }
    }
  }

  lemma {:induction false} ClearSpawnsHarmless(p: Params, w: World, run: Run)
    requires Sound(p) && Inv(p, w) && AllWaitClear(p, w) && Feasible(p, w, run)
    requires forall e | e in run :: SpawnClear(p, e)
    ensures SpawnsHarmless(p, w, run)
    decreases |run|
  {
    if run != [] {
      var e := run[0];
      StepKeepsWaitClear(p, w, e);
      ClearSpawnsHarmless(p, Next(p, w, e), run[1..]);
    }
  }

  /** Static layout: if every drawn and computed column is clear of the walls, no run
      changes a wall or goal cell. */
  lemma LayoutNeverChanges(p: Params, w0: World, run: Run)
    requires Sound(p) && Init(p, w0) && Feasible(p, w0, run)
    requires forall e | e in run :: SpawnClear(p, e)
    ensures SpawnsHarmless(p, w0, run)
    ensures StaticKept(p, Exec(p, w0, run).mem.cell)
  {
    InitInv(p, w0);
    ClearSpawnsHarmless(p, w0, run);
    LayoutIntactIff(p, w0, run);
  }

  /** With the sizes of the program a placed missile has 7 <= x <= 634 and
      7 <= y <= 380, and spawns are clear exactly for the columns 2..638. */
  lemma DefaultSizes(q: Pos, x: int)
    requires InBorders(DEFAULT, AtkSpawn(DEFAULT, x))
    ensures Inside(DEFAULT, q) <==> 7 <= q.x <= 634 && 7 <= q.y <= 380
    ensures AtkSpawn(DEFAULT, x).y == 8 && DefSpawn(DEFAULT, x).y == 378
    ensures !Static(DEFAULT, AtkSpawn(DEFAULT, x)) <==> 2 <= x <= 638
    ensures !Static(DEFAULT, DefSpawn(DEFAULT, x)) <==> 2 <= x <= 638
  {
  }

  /** An attacker is drawn in column x and makes its first move and its first update. */
  function FirstUpdate(p: Params, x: int, to: Pos, hit: Option<Pos>): Run {
    [LaunchAtk(0, x)] + [Move(ATTACKER, 0, to)] + [Update(ATTACKER, 0, hit)]
  }

  /** Every drawn column that is a wall damages the wall, wherever the attacker moves
      first; with the program's sizes these are the columns 0, 1 and 639 (DefaultSizes). */
  lemma LayoutCanBreak(p: Params, w0: World, x: int, to: Pos) returns (hit: Option<Pos>)
    requires Sound(p) && Init(p, w0) && InBorders(p, AtkSpawn(p, x)) && Static(p, AtkSpawn(p, x))
    ensures Feasible(p, w0, FirstUpdate(p, x, to, hit))
    ensures !StaticKept(p, Exec(p, w0, FirstUpdate(p, x, to, hit)).mem.cell)
  {
    InitInv(p, w0);
    assert w0.Phases(ATTACKER)[0].Free?;
    assert Feasible(p, w0, []) && Exec(p, w0, []) == w0;
    var run := [LaunchAtk(0, x)];
    assert [] + run == run;
    RunExtends(p, w0, [], run[0]);
    RunExtends(p, w0, run, Move(ATTACKER, 0, to));
    run := run + [Move(ATTACKER, 0, to)];
    var w := Exec(p, w0, run);
    assert w.atkPhase[0] == Moved(AtkSpawn(p, x), false);
    hit := MovementInBounds(p, w0, run, ATTACKER, 0);
    RunInv(p, w0, run);
    RunExtends(p, w0, run, Update(ATTACKER, 0, hit));
    ErasingDamages(p, w, Update(ATTACKER, 0, hit));
  }

  /** An attacker scores only when it has come within `span` rows of the goal. */
  lemma AttackerScoresAtTheGoal(p: Params, w0: World, run: Run, i: nat, hit: Option<Pos>)
    requires Sound(p) && Init(p, w0) && Feasible(p, w0, run) && SpawnsHarmless(p, w0, run)
    requires Enabled(p, Exec(p, w0, run), Update(ATTACKER, i, hit))
    requires var w := Exec(p, w0, run); Next(p, w, Update(ATTACKER, i, hit)).mem.atkPoints > w.mem.atkPoints
    ensures Exec(p, w0, run).mem.atk[i].pos.y > p.goalY - p.span + 1
  {
    InitInv(p, w0);
    RunKeepsLayout(p, w0, run);
    PointMeaning(p, Exec(p, w0, run), ATTACKER, i, hit);
  }
}
