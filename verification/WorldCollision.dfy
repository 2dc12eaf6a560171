/** What an update does, said of positions and cells alone: which cells stop a missile,
    which of them is hit, and who scores at the goal. */
module WorldCollision {
  import opened Options
  import opened Missiles
  import opened World
  import opened WorldScore
  import opened WorldAccess
  import opened WorldLayout

  /** q is in the square of MISSILE_RADIUS cells to the left of c and above it, and one
      less to the right and below. */
  predicate InReach(p: Params, c: Pos, q: Pos) {
    c.x - p.span <= q.x < c.x + p.span && c.y - p.span <= q.y < c.y + p.span
  }

  predicate InWindow(p: Params, q: Pos) {
    0 <= q.x < p.xwin && 0 <= q.y < p.ywin
  }

  /** A cell other than the mover's old one that is not empty. */
  predicate Occupied(w: World, from: Pos, q: Pos) {
    q in w.mem.cell && q != from && w.mem.cell[q].ctype != EMPTY
  }

  /** q stops a missile that moves from `from` to c. */
  predicate Stops(p: Params, w: World, from: Pos, c: Pos, q: Pos) {
    Occupied(w, from, q) && InReach(p, c, q)
  }

  /** A cell stops the scan exactly when it is not empty: the mover has no other cell. */
  lemma OffendsIffOccupied(p: Params, w: World, k: MissileType, i: nat, hit: Option<Pos>, q: Pos)
    requires Sound(p) && Inv(p, w) && NoForgedCells(p, w.mem.cell) && Enabled(p, w, Update(k, i, hit))
    requires q in w.mem.cell
    ensures var cell := Erase(w.mem, w.Phases(k)[i].from).cell;
      q in cell && (Offends(cell[q], k, i) <==> Occupied(w, w.Phases(k)[i].from, q))
  {
    MoverOwnsNothing(p, w, k, i, hit);
    if LooksStatic(w.mem.cell[q]) { assert w.mem.cell[q] == InitCell(p, q); }
  }

  lemma InBoxIffInReach(p: Params, c: Pos, q: Pos)
    requires Sound(p) && InWindow(p, c) && InWindow(p, q)
    ensures InBox(BoxAround(p, c), q) <==> InReach(p, c, q)
  {
  }

  /** The scan of an update, without its box and its tests. */
  lemma ScanMeaning(p: Params, w: World, k: MissileType, i: nat, hit: Option<Pos>)
    requires Sound(p) && Inv(p, w) && NoForgedCells(p, w.mem.cell) && Enabled(p, w, Update(k, i, hit))
    requires !w.mem.Queue(k)[i].deleted && InWindow(p, w.mem.Queue(k)[i].pos)
    ensures var from, c := w.Phases(k)[i].from, w.mem.Queue(k)[i].pos;
      match hit
      case None => forall q :: !Stops(p, w, from, c, q)
      case Some(h) =>
        && Stops(p, w, from, c, h)
        && forall q | Stops(p, w, from, c, q) && q != h :: h.x < q.x || (h.x == q.x && h.y < q.y)
  {
    var from, c := w.Phases(k)[i].from, w.mem.Queue(k)[i].pos;
    assert SlotOk(p, k, i, w.mem.Queue(k)[i], w.Phases(k)[i]);
    forall q | q in w.mem.cell
      ensures Stops(p, w, from, c, q)
        <==> InBox(BoxAround(p, c), q) && Offends(Erase(w.mem, from).cell[q], k, i)
    {
      OffendsIffOccupied(p, w, k, i, hit, q);
      InBoxIffInReach(p, c, q);
    }
  }

  lemma ReachableShape(p: Params, w0: World, run: Run)
    requires Sound(p) && Init(p, w0) && Feasible(p, w0, run)
    ensures Inv(p, Exec(p, w0, run)) && NoForgedCells(p, Exec(p, w0, run).mem.cell)
  {
    InitInv(p, w0);
    RunInv(p, w0, run);
    RunForgesNothing(p, w0, run);
  }

  /** A deleted missile ends its loop and changes nothing. */
  lemma DeletedMissileEnds(p: Params, w: World, k: MissileType, i: nat, hit: Option<Pos>)
    requires Inv(p, w) && Enabled(p, w, Update(k, i, hit)) && w.mem.Queue(k)[i].deleted
    ensures var w' := Next(p, w, Update(k, i, hit));
      |w'.Phases(k)| == p.n && w'.mem == w.mem && w'.Phases(k)[i].Done?
  {
    UpdatedPhase(p, w, k, i, hit, k, i);
  }

  /** A missile that leaves the window ends its loop; its old cell is emptied and nothing
      else changes. */
  lemma LeavingMissileEnds(p: Params, w: World, k: MissileType, i: nat, hit: Option<Pos>)
    requires Inv(p, w) && Enabled(p, w, Update(k, i, hit))
    requires !w.mem.Queue(k)[i].deleted && !InWindow(p, w.mem.Queue(k)[i].pos)
    ensures var w' := Next(p, w, Update(k, i, hit)); var from := w.Phases(k)[i].from;
      && |w'.Phases(k)| == p.n && w'.Phases(k)[i].Done?
      && w'.mem == w.mem.(cell := w.mem.cell[from := Cell(EMPTY, -1, -1)])
  {
    UpdatedPhase(p, w, k, i, hit, k, i);
  }

  /** Collision: in every run, an update of an undeleted missile in the window collides
      exactly when some cell in reach is not empty, whatever is there; then it hits the
      first such cell by columns and ends its loop. Otherwise it is placed. */
  lemma CollidesIffOccupied(p: Params, w0: World, run: Run, k: MissileType, i: nat, hit: Option<Pos>)
    requires Sound(p) && Init(p, w0) && Feasible(p, w0, run)
    requires Enabled(p, Exec(p, w0, run), Update(k, i, hit))
    requires var r := Exec(p, w0, run).mem.Queue(k)[i]; !r.deleted && InWindow(p, r.pos)
    ensures var w := Exec(p, w0, run); var w' := Next(p, w, Update(k, i, hit));
      var from, c := w.Phases(k)[i].from, w.mem.Queue(k)[i].pos;
      && |w'.Phases(k)| == p.n && c in w'.mem.cell
      && if exists q :: Stops(p, w, from, c, q) then
           && w'.Phases(k)[i].Done? && hit.Some? && Stops(p, w, from, c, hit.value)
           && forall q | Stops(p, w, from, c, q) && q != hit.value ::
                hit.value.x < q.x || (hit.value.x == q.x && hit.value.y < q.y)
         else
           && w'.Phases(k)[i] == Loop(true)
           && w'.mem.cell[c] == Cell(if k.ATTACKER? then ATK_MISSILE else DEF_MISSILE, i, w.mem.Queue(k)[i].target)
  {
    ReachableShape(p, w0, run);
    var w := Exec(p, w0, run);
    ScanMeaning(p, w, k, i, hit);
    UpdatedPhase(p, w, k, i, hit, k, i);
    UpdatedCell(p, w, k, i, hit, w.mem.Queue(k)[i].pos);
  }

  /** After an update that does not collide, no other missile is in reach of the one that
      was placed. */
  lemma PlacedMissileAlone(p: Params, w0: World, run: Run, k: MissileType, i: nat, hit: Option<Pos>, q: Pos)
    requires Sound(p) && Init(p, w0) && Feasible(p, w0, run)
    requires Enabled(p, Exec(p, w0, run), Update(k, i, hit))
    requires var w := Exec(p, w0, run); var w' := Next(p, w, Update(k, i, hit));
      && i < |w'.Phases(k)| && w'.Phases(k)[i].Loop?
      && q in w'.mem.cell && (w'.mem.cell[q].ctype == ATK_MISSILE || w'.mem.cell[q].ctype == DEF_MISSILE)
      && q != w.mem.Queue(k)[i].pos
    ensures var c := Exec(p, w0, run).mem.Queue(k)[i].pos;
      !(c.x - p.span <= q.x < c.x + p.span && c.y - p.span <= q.y < c.y + p.span)
  {
    ReachableShape(p, w0, run);
    var w := Exec(p, w0, run);
    UpdatedPhase(p, w, k, i, hit, k, i);
    UpdatedCell(p, w, k, i, hit, q);
    ScanMeaning(p, w, k, i, hit);
    assert !Stops(p, w, w.Phases(k)[i].from, w.mem.Queue(k)[i].pos, q);
  }

  // ----- the goal -----

  /** Below the goal line and no wall. */
  predicate InGoal(p: Params, q: Pos) {
    q.y > p.goalY && p.thick <= q.x <= p.xwin - p.thick && p.thick <= q.y <= p.ywin - p.thick
  }

  /** In a harmless run the walls and the goal are where their sizes say. */
  lemma StaticPlaces(p: Params, w0: World, run: Run, q: Pos)
    requires Sound(p) && Init(p, w0) && Feasible(p, w0, run) && SpawnsHarmless(p, w0, run) && InWindow(p, q)
    ensures var cell := Exec(p, w0, run).mem.cell;
      && q in cell
      && (cell[q].ctype == GOAL <==> InGoal(p, q))
      && (cell[q].ctype == WALL <==>
            !(p.thick <= q.x <= p.xwin - p.thick && p.thick <= q.y <= p.ywin - p.thick))
  {
    InitInv(p, w0);
    RunKeepsLayout(p, w0, run);
    assert q in Grid(p);
  }

  /** In a harmless run an attacker's update adds an attacker point exactly when the first
      occupied cell in its reach is a goal cell, and no other update adds one. */
  lemma AttackerScoresIff(p: Params, w0: World, run: Run, k: MissileType, i: nat, hit: Option<Pos>)
    requires Sound(p) && Init(p, w0) && Feasible(p, w0, run) && SpawnsHarmless(p, w0, run)
    requires Enabled(p, Exec(p, w0, run), Update(k, i, hit))
    ensures var w := Exec(p, w0, run);
      Next(p, w, Update(k, i, hit)).mem.atkPoints
        == w.mem.atkPoints + if k.ATTACKER? && hit.Some? && InGoal(p, hit.value) then 1 else 0
  {
    InitInv(p, w0);
    RunKeepsLayout(p, w0, run);
    var w := Exec(p, w0, run);
    PointMeaning(p, w, k, i, hit);
    if hit.Some? {
      assert hit.value in w.mem.cell;
      StaticPlaces(p, w0, run, hit.value);
    }
  }
}
