/** Every grid access of a movement loop is in bounds, every update has an
    outcome, and one update touches little. */
module WorldAccess {
  import opened Options
  import opened Missiles
  import opened World
  import opened WorldScore

  /** A non-empty set of positions has a column-major first one. */
  lemma {:induction false} FirstOf(s: set<Pos>) returns (m: Pos)
    requires s != {}
    ensures m in s && forall q | q in s :: !ColumnMajor(q, m)
    decreases |s|
  {
    m :| m in s;
    if s != {m} {
      assert s - {m} != {} by {
        var other :| other in s && other != m;
        assert other in s - {m};
      }
      var last := m;
      var rest := FirstOf(s - {last});
      if ColumnMajor(rest, last) { m := rest; }
      forall q | q in s ensures !ColumnMajor(q, m) {
        assert q == last || q in s - {last};
      }
    }
  }

  /** The scan always has an outcome. */
  lemma ScanHasOutcome(cell: map<Pos, Cell>, b: Box, k: MissileType, index: int) returns (hit: Option<Pos>)
    ensures FirstHit(cell, b, k, index, hit)
  {
    var offenders := set q | q in cell && InBox(b, q) && Offends(cell[q], k, index);
    if offenders == {} {
      hit := None;
      assert forall q | q in cell && InBox(b, q) && Offends(cell[q], k, index) :: q in offenders;
    } else {
      var h := FirstOf(offenders);
      hit := Some(h);
      assert forall q | q in cell && InBox(b, q) && Offends(cell[q], k, index) :: q in offenders;
    }
  }

  /** In-bounds movement: in every reachable state, for arbitrary displacements,
      the old position of a moved missile is in the window, the box it scans is in
      the window, and its update can happen. */
  lemma MovementInBounds(p: Params, w0: World, run: Run, k: MissileType, i: nat) returns (hit: Option<Pos>)
    requires Sound(p) && Init(p, w0) && Feasible(p, w0, run)
    requires i < p.n && Exec(p, w0, run).Phases(k)[i].Moved?
    ensures var w := Exec(p, w0, run);
      && InBorders(p, w.Phases(k)[i].from)
      && (forall q | InBorders(p, w.mem.Queue(k)[i].pos) && InBox(BoxAround(p, w.mem.Queue(k)[i].pos), q) ::
            InBorders(p, q))
      && Enabled(p, w, Update(k, i, hit))
  {
    InitInv(p, w0);
    RunInv(p, w0, run);
    var w := Exec(p, w0, run);
    var r := w.mem.Queue(k)[i];
    assert SlotOk(p, k, i, r, w.Phases(k)[i]);
    if r.deleted || !InBorders(p, r.pos) {
      hit := None;
    } else {
      hit := ScanHasOutcome(Erase(w.mem, w.Phases(k)[i].from).cell, BoxAround(p, r.pos), r.mtype, r.index);
    }
  }

  /** An update writes at most the old cell, the cell it collides with and the new
      cell. */
  lemma UpdateTouchesFewCells(p: Params, w: World, k: MissileType, i: nat, hit: Option<Pos>, q: Pos)
    requires Inv(p, w) && Enabled(p, w, Update(k, i, hit))
    requires q in w.mem.cell && q != w.Phases(k)[i].from && q != w.mem.Queue(k)[i].pos && Some(q) != hit
    ensures var m' := Next(p, w, Update(k, i, hit)).mem;
      q in m'.cell && m'.cell[q] == w.mem.cell[q]
  {
    UpdatedPhase(p, w, k, i, hit, k, i);
    UpdatedCell(p, w, k, i, hit, q);
  }

  /** An update changes at most one record, by deleting it, and only on a collision
      with a missile. */
  lemma UpdateDeletesAtMostOne(p: Params, w: World, k: MissileType, i: nat, hit: Option<Pos>,
                               k1: MissileType, i1: nat, k2: MissileType, i2: nat)
    requires Inv(p, w) && Enabled(p, w, Update(k, i, hit)) && i1 < p.n && i2 < p.n
    ensures var m' := Next(p, w, Update(k, i, hit)).mem;
      && |m'.Queue(k1)| == p.n && |m'.Queue(k2)| == p.n
      && (m'.Queue(k1)[i1] != w.mem.Queue(k1)[i1] ==>
            hit.Some? && m'.Queue(k1)[i1] == w.mem.Queue(k1)[i1].(deleted := true))
      && (m'.Queue(k1)[i1] != w.mem.Queue(k1)[i1] && m'.Queue(k2)[i2] != w.mem.Queue(k2)[i2] ==>
            k1 == k2 && i1 == i2)
  {
    UpdatedPhase(p, w, k, i, hit, k, i);
    UpdatedRecord(p, w, k, i, hit, k1, i1);
    UpdatedRecord(p, w, k, i, hit, k2, i2);
  }

  // ----- no task is stuck -----

  function Swap(q: Pos): Pos {
    Pos(q.y, q.x)
  }

  /** A search always has an outcome. */
  lemma SearchHasOutcome(m: Memory, red: set<Pos>) returns (found: Option<Pos>)
    ensures SearchFinds(m, red, found)
  {
    var swapped := set q | q in m.cell && Candidate(m, red, q) :: Swap(q);
    assert forall q | q in m.cell && Candidate(m, red, q) :: Swap(q) in swapped;
    if swapped == {} {
      found := None;
    } else {
      var s := FirstOf(swapped);
      found := Some(Swap(s));
      assert Swap(Swap(s)) == s;
      forall q | q in m.cell && RowMajor(q, Swap(s)) ensures !Candidate(m, red, q) {
        assert ColumnMajor(Swap(q), s);
      }
    }
  }

  /** In every reachable state every missile and the defender launcher can go on: a free
      record can be launched, a started task aimed, a missile in its loop moved anywhere,
      a moved one updated, one that has left its loop cleared. */
  lemma NobodyStuck(p: Params, w0: World, run: Run, k: MissileType, i: nat, x: int, to: Pos, red: set<Pos>)
    returns (hit: Option<Pos>, found: Option<Pos>)
    requires Sound(p) && Init(p, w0) && Feasible(p, w0, run) && i < p.n
    requires 0 <= x < p.xwin && p.thick + p.span + 1 < p.ywin && 0 <= p.goalY - p.span - 1 < p.ywin
    ensures var w := Exec(p, w0, run);
      && (match w.Phases(k)[i]
          case Free => if k.ATTACKER? then Enabled(p, w, LaunchAtk(i, x))
                       else w.launcher.Seeking? ==> Enabled(p, w, Acquire(i))
          case Ready => Enabled(p, w, Aim(i, x))
          case Loop(_) => Enabled(p, w, Move(k, i, to))
          case Moved(_, _) => Enabled(p, w, Update(k, i, hit))
          case Done => Enabled(p, w, Clear(k, i)))
      && (match w.launcher
          case Seeking => true
          case Holding(_) => Enabled(p, w, Search(red, found))
          case Found(_) => Enabled(p, w, LaunchDef))
  {
    InitInv(p, w0);
    RunInv(p, w0, run);
    var w := Exec(p, w0, run);
    assert SlotOk(p, k, i, w.mem.Queue(k)[i], w.Phases(k)[i]);
    found := SearchHasOutcome(w.mem, red);
    hit := None;
    if w.Phases(k)[i].Moved? { hit := MovementInBounds(p, w0, run, k, i); }
  }

  // ----- a move takes no lock -----

  /** The memory after missile (k, i) has moved. */
  function Shifted(m: Memory, k: MissileType, i: nat, to: Pos): Memory
    requires i < |m.Queue(k)|
  {
    m.SetMissile(k, i, m.Queue(k)[i].(pos := to))
  }

  lemma ShiftedDelete(m: Memory, k: MissileType, i: nat, to: Pos, kk: MissileType, j: nat)
    requires i < |m.Queue(k)| && j < |m.Queue(kk)|
    ensures j < |Shifted(m, k, i, to).Queue(kk)| && i < |Delete(m, kk, j).Queue(k)|
    ensures Delete(Shifted(m, k, i, to), kk, j) == Shifted(Delete(m, kk, j), k, i, to)
  {
  }

  lemma ShiftedCollide(m: Memory, k: MissileType, i: nat, to: Pos, kk: MissileType, q: Pos)
    requires i < |m.Queue(k)| && q in m.cell
    requires IsMissileType(m.cell[q].ctype) ==> 0 <= m.cell[q].value < |m.Queue(TypeOfCell(m.cell[q].ctype))|
    ensures |Shifted(m, k, i, to).Queue(ATTACKER)| == |m.Queue(ATTACKER)|
    ensures |Shifted(m, k, i, to).Queue(DEFENDER)| == |m.Queue(DEFENDER)|
    ensures i < |Collide(m, kk, q).Queue(k)|
    ensures Collide(Shifted(m, k, i, to), kk, q) == Shifted(Collide(m, kk, q), k, i, to)
  {
    var c := m.cell[q];
    if IsMissileType(c.ctype) { ShiftedDelete(m, k, i, to, TypeOfCell(c.ctype), c.value); }
  }

  /** An update sees nothing of another missile's move, and leaves it alone. */
  lemma ShiftedUpdate(p: Params, m: Memory, k: MissileType, i: nat, to: Pos,
                      kk: MissileType, j: nat, from: Pos, hit: Option<Pos>)
    requires WellFormed(p, m) && i < p.n && j < p.n && (k, i) != (kk, j) && InBorders(p, from)
    requires UpdateFinds(p, m, kk, j, from, hit)
    ensures var m' := Shifted(m, k, i, to);
      && WellFormed(p, m') && UpdateFinds(p, m', kk, j, from, hit)
      && UpdateCollides(p, m', kk, j, hit) == UpdateCollides(p, m, kk, j, hit)
      && |Updated(p, m, kk, j, from, hit).Queue(k)| == p.n
      && Updated(p, m', kk, j, from, hit) == Shifted(Updated(p, m, kk, j, from, hit), k, i, to)
  {
    if hit.Some? { ShiftedCollide(Erase(m, from), k, i, to, m.Queue(kk)[j].mtype, hit.value); }
  }

  /** A move, which takes no lock, commutes with the section of another missile, even
      of one that deletes the moving missile. */
  lemma MoveCommutesWithUpdate(p: Params, w: World, k: MissileType, i: nat, to: Pos,
                               kk: MissileType, j: nat, hit: Option<Pos>)
    requires Sound(p) && Inv(p, w) && (k, i) != (kk, j)
    requires Enabled(p, w, Move(k, i, to)) && Enabled(p, w, Update(kk, j, hit))
    ensures var moved := Next(p, w, Move(k, i, to)); var updated := Next(p, w, Update(kk, j, hit));
      && Typed(p, moved) && Enabled(p, moved, Update(kk, j, hit))
      && Typed(p, updated) && Enabled(p, updated, Move(k, i, to))
      && Next(p, moved, Update(kk, j, hit)) == Next(p, updated, Move(k, i, to))
  {
    var e, u := Move(k, i, to), Update(kk, j, hit);
    var moved, updated := Next(p, w, e), Next(p, w, u);
    StepInv(p, w, e);
    StepInv(p, w, u);
    UpdatedPhase(p, w, kk, j, hit, k, i);
    UpdatedRecord(p, w, kk, j, hit, k, i);
    ShiftedUpdate(p, w.mem, k, i, to, kk, j, w.Phases(kk)[j].from, hit);
    assert moved.mem == Shifted(w.mem, k, i, to) && moved.Phases(kk)[j] == w.Phases(kk)[j];
    SameAfterBoth(p, w, k, i, to, kk, j, hit, moved, updated);
  }

  /** What a move makes of a world. */
  function AfterMove(w: World, k: MissileType, i: nat, m: Memory, ph: Phase): World
    requires i < |w.Phases(k)|
  {
    w.(mem := m).SetPhase(k, i, ph)
  }

  /** What an update makes of a world. */
  function AfterUpdate(w: World, k: MissileType, i: nat, m: Memory, ph: Phase, atk: nat, def: nat): World
    requires i < |w.Phases(k)|
  {
    w.(mem := m, atkLost := w.atkLost + atk, defLost := w.defLost + def).SetPhase(k, i, ph)
  }

  lemma FormsCommute(w: World, k: MissileType, i: nat, m1: Memory, ph: Phase,
                     kk: MissileType, j: nat, m2: Memory, ph': Phase, atk: nat, def: nat, m: Memory)
    requires i < |w.Phases(k)| && j < |w.Phases(kk)| && (k, i) != (kk, j)
    ensures j < |AfterMove(w, k, i, m1, ph).Phases(kk)|
    ensures i < |AfterUpdate(w, kk, j, m2, ph', atk, def).Phases(k)|
    ensures AfterUpdate(AfterMove(w, k, i, m1, ph), kk, j, m, ph', atk, def)
         == AfterMove(AfterUpdate(w, kk, j, m2, ph', atk, def), k, i, m, ph)
  {
  }

  lemma MoveForm(p: Params, w: World, k: MissileType, i: nat, to: Pos)
    requires Typed(p, w) && Enabled(p, w, Move(k, i, to))
    ensures Next(p, w, Move(k, i, to))
         == AfterMove(w, k, i, Shifted(w.mem, k, i, to), Moved(w.mem.Queue(k)[i].pos, w.Phases(k)[i].placed))
  {
  }

  lemma UpdateForm(p: Params, w: World, k: MissileType, i: nat, hit: Option<Pos>)
    requires Typed(p, w) && Enabled(p, w, Update(k, i, hit))
    ensures Next(p, w, Update(k, i, hit))
         == AfterUpdate(w, k, i, Updated(p, w.mem, k, i, w.Phases(k)[i].from, hit),
                        if UpdateCollides(p, w.mem, k, i, hit) then Done else Loop(true),
                        Losses(p, w, k, i, hit, ATTACKER), Losses(p, w, k, i, hit, DEFENDER))
  {
  }

  lemma MovedLosses(p: Params, w: World, k: MissileType, i: nat, to: Pos, kk: MissileType, j: nat,
                    hit: Option<Pos>, moved: World, t: MissileType)
    requires Typed(p, w) && i < p.n && (k, i) != (kk, j) && Enabled(p, w, Update(kk, j, hit))
    requires moved.mem == Shifted(w.mem, k, i, to) && Typed(p, moved) && Enabled(p, moved, Update(kk, j, hit))
    ensures Losses(p, moved, kk, j, hit, t) == Losses(p, w, kk, j, hit, t)
  {
  }

  lemma SameAfterBoth(p: Params, w: World, k: MissileType, i: nat, to: Pos, kk: MissileType, j: nat,
                      hit: Option<Pos>, moved: World, updated: World)
    requires Typed(p, w) && (k, i) != (kk, j)
    requires Enabled(p, w, Move(k, i, to)) && Enabled(p, w, Update(kk, j, hit))
    requires moved == Next(p, w, Move(k, i, to)) && updated == Next(p, w, Update(kk, j, hit))
    requires Typed(p, moved) && Enabled(p, moved, Update(kk, j, hit))
    requires Typed(p, updated) && Enabled(p, updated, Move(k, i, to))
    requires moved.Phases(kk)[j] == w.Phases(kk)[j] && updated.Phases(k)[i] == w.Phases(k)[i]
    requires updated.mem.Queue(k)[i].pos == w.mem.Queue(k)[i].pos
    requires moved.mem == Shifted(w.mem, k, i, to)
    requires UpdateCollides(p, moved.mem, kk, j, hit) == UpdateCollides(p, w.mem, kk, j, hit)
    requires Updated(p, moved.mem, kk, j, w.Phases(kk)[j].from, hit) == Shifted(updated.mem, k, i, to)
    ensures Next(p, moved, Update(kk, j, hit)) == Next(p, updated, Move(k, i, to))
  {
    MoveForm(p, w, k, i, to);
    UpdateForm(p, w, kk, j, hit);
    MoveForm(p, updated, k, i, to);
    UpdateForm(p, moved, kk, j, hit);
    MovedLosses(p, w, k, i, to, kk, j, hit, moved, ATTACKER);
    MovedLosses(p, w, k, i, to, kk, j, hit, moved, DEFENDER);
    FormsCommute(w, k, i, moved.mem, Moved(w.mem.Queue(k)[i].pos, w.Phases(k)[i].placed), kk, j, updated.mem,
                 if UpdateCollides(p, w.mem, kk, j, hit) then Done else Loop(true),
                 Losses(p, w, kk, j, hit, ATTACKER), Losses(p, w, kk, j, hit, DEFENDER),
                 Shifted(updated.mem, k, i, to));
  }
}
