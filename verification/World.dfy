/** The running simulation: any number of missiles up to 2n, the two launchers,
    and every interleaving of their critical sections. One event is one section
    between access_env and release_env, or one update of a record by its own task
    or launcher. Under the environment lock the former is atomic (EnvSections); the
    index queues hand out an index only while its record is free (Composition). A
    search also reads the defenders' indices, which their tasks may clear meanwhile:
    it is one event at its end, over the pixels it accepted
    (WorldTracking.InterruptedSearch). The events stop when `end` is set. */
module World {
  import opened Options
  import opened Missiles

  /** Where the task of a missile record is. */
  datatype Phase =
    | Free                                // no task
    | Ready                               // a defender that still computes its start
    | Loop(placed: bool)                  // top of the movement loop, line 404
    | Moved(from: Pos, placed: bool)      // moved, not yet updated, line 410; from is (oldx, oldy)
    | Done                                // left the loop, before clear_missile

  /** The defender launcher: asking for an index, searching with it, or about to
      launch with it. */
  datatype Launcher = Seeking | Holding(t: nat) | Found(t: nat)

  datatype World = World(
    mem: Memory, atkPhase: seq<Phase>, defPhase: seq<Phase>, launcher: Launcher,
    // history: missiles launched, and missiles that ended without a point
    atkLaunched: nat, defLaunched: nat, atkLost: nat, defLost: nat)
  {
    function Phases(k: MissileType): seq<Phase> {
      if k.ATTACKER? then atkPhase else defPhase
    }

    function SetPhase(k: MissileType, i: nat, ph: Phase): World
      requires i < |Phases(k)|
    {
      if k.ATTACKER? then this.(atkPhase := atkPhase[i := ph]) else this.(defPhase := defPhase[i := ph])
    }

    function SetRecord(k: MissileType, i: nat, r: Missile, ph: Phase): World
      requires i < |Phases(k)| && i < |mem.Queue(k)|
    {
      this.(mem := mem.SetMissile(k, i, r)).SetPhase(k, i, ph)
    }
  }

  datatype Event =
    | LaunchAtk(i: nat, x: int)
    | Acquire(t: nat)
    | Search(red: set<Pos>, found: Option<Pos>)
    | LaunchDef
    | Aim(i: nat, x: int)
    | Move(k: MissileType, i: nat, to: Pos)
    | Update(k: MissileType, i: nat, hit: Option<Pos>)
    | Clear(k: MissileType, i: nat)

  ghost predicate Typed(p: Params, w: World) {
    WellFormed(p, w.mem) && |w.atkPhase| == p.n && |w.defPhase| == p.n
  }

  /** The event can happen. Spawns are inside the window: the program does not
      check that, so it is a hypothesis on the columns it draws and computes. */
  ghost predicate Enabled(p: Params, w: World, e: Event)
    requires Typed(p, w)
  {
    match e
    case LaunchAtk(i, x) => i < p.n && w.atkPhase[i].Free? && InBorders(p, AtkSpawn(p, x))
    case Acquire(t) => w.launcher.Seeking? && t < p.n && w.defPhase[t].Free?
    case Search(red, found) => w.launcher.Holding? && SearchFinds(w.mem, red, found)
    case LaunchDef => w.launcher.Found? && w.launcher.t < p.n
    case Aim(i, x) => i < p.n && w.defPhase[i].Ready? && InBorders(p, DefSpawn(p, x))
    case Move(k, i, to) => i < p.n && w.Phases(k)[i].Loop?
    case Update(k, i, hit) =>
      i < p.n && w.Phases(k)[i].Moved? && InBorders(p, w.Phases(k)[i].from)
      && UpdateFinds(p, w.mem, k, i, w.Phases(k)[i].from, hit)
    case Clear(k, i) => i < p.n && w.Phases(k)[i].Done?
  }

  /** Missiles of type kk that an update ends without a point: a missile that
      leaves the window or meets something that gives no point, and the missile
      of its own type it meets. */
  ghost function Losses(p: Params, w: World, k: MissileType, i: nat, hit: Option<Pos>, kk: MissileType): nat
    requires Typed(p, w) && Enabled(p, w, Update(k, i, hit))
  {
    if kk != k || !UpdateCollides(p, w.mem, k, i, hit) || w.mem.Queue(k)[i].deleted then 0
    else if hit.None? then 1
    else
      var t := w.mem.cell[hit.value].ctype;
      if DefScores(k, t) || AtkScores(k, t) then 0 else if t == CellTypeOf(k) then 2 else 1
  }

  ghost function Next(p: Params, w: World, e: Event): World
    requires Typed(p, w) && Enabled(p, w, e)
  {
    match e
    case LaunchAtk(i, x) =>
      w.SetRecord(ATTACKER, i, NewAttacker(p, i, x), Loop(false)).(atkLaunched := w.atkLaunched + 1)
    case Acquire(t) => w.(launcher := Holding(t))
    case Search(red, found) =>
      if found.None? then w
      else w.(mem := Assigned(w.mem, found, w.launcher.t), launcher := Found(w.launcher.t))
    case LaunchDef =>
      var t := w.launcher.t;
      w.SetRecord(DEFENDER, t, NewDefender(t), Ready).(launcher := Seeking, defLaunched := w.defLaunched + 1)
    case Aim(i, x) =>
      w.SetRecord(DEFENDER, i, w.mem.def[i].(pos := DefSpawn(p, x)), Loop(false))
    case Move(k, i, to) =>
      var r := w.mem.Queue(k)[i];
      w.SetRecord(k, i, r.(pos := to), Moved(r.pos, w.Phases(k)[i].placed))
    case Update(k, i, hit) =>
      var collided := UpdateCollides(p, w.mem, k, i, hit);
      w.(mem := Updated(p, w.mem, k, i, w.Phases(k)[i].from, hit),
         atkLost := w.atkLost + Losses(p, w, k, i, hit, ATTACKER),
         defLost := w.defLost + Losses(p, w, k, i, hit, DEFENDER))
       .SetPhase(k, i, if collided then Done else Loop(true))
    case Clear(k, i) => w.SetRecord(k, i, Emptied(w.mem.Queue(k)[i]), Free)
  }

  ghost predicate Init(p: Params, w: World) {
    && Typed(p, w)
    && w.mem.cell == (map q | q in Grid(p) :: InitCell(p, q))
    && w.mem.atkPoints == 0 && w.mem.defPoints == 0
    && (forall k: MissileType, i | 0 <= i < p.n :: w.mem.Queue(k)[i] == EMPTY_MISSILE && w.Phases(k)[i].Free?)
    && w.launcher.Seeking?
    && w.atkLaunched == 0 && w.defLaunched == 0 && w.atkLost == 0 && w.defLost == 0
  }

  // ----- the invariant -----

  /** The missile is in its movement loop. */
  predicate Active(ph: Phase) {
    ph.Loop? || ph.Moved?
  }

  /** The last position that an update of the missile has processed, or its spawn. */
  function Committed(r: Missile, ph: Phase): Pos {
    if ph.Moved? then ph.from else r.pos
  }

  /** Missile (k, i) is alive, not deleted, and was last placed at q. */
  predicate Owns(w: World, k: MissileType, i: int, q: Pos) {
    && 0 <= i < |w.Phases(k)| && i < |w.mem.Queue(k)|
    && Active(w.Phases(k)[i]) && w.Phases(k)[i].placed
    && !w.mem.Queue(k)[i].deleted
    && Committed(w.mem.Queue(k)[i], w.Phases(k)[i]) == q
  }

  /** What the record of missile (k, i) says in each phase. */
  predicate SlotOk(p: Params, k: MissileType, i: int, r: Missile, ph: Phase) {
    match ph
    case Free => r.index == NONE && !r.deleted
    case Ready => k.DEFENDER? && r.index == i && r.mtype == k && !r.deleted
    case Loop(placed) => r.index == i && r.mtype == k && InBorders(p, r.pos) && (!placed ==> !r.deleted)
    case Moved(from, placed) => r.index == i && r.mtype == k && InBorders(p, from) && (!placed ==> !r.deleted)
    case Done => r.index == i && r.mtype == k
  }

  ghost predicate SlotsOk(p: Params, w: World)
    requires Typed(p, w)
  {
    && (forall k: MissileType, i | 0 <= i < p.n :: SlotOk(p, k, i, w.mem.Queue(k)[i], w.Phases(k)[i]))
    && (!w.launcher.Seeking? ==> w.launcher.t < p.n && w.defPhase[w.launcher.t].Free?)
  }

  /** Every missile cell sits where a live, undeleted missile of that type and
      index was last placed: no cell outlives its missile. */
  ghost predicate NoGhosts(w: World) {
    forall q | q in w.mem.cell && IsMissileType(w.mem.cell[q].ctype) ::
      Owns(w, TypeOfCell(w.mem.cell[q].ctype), w.mem.cell[q].value, q)
  }

  ghost predicate Inv(p: Params, w: World) {
    Typed(p, w) && SlotsOk(p, w) && NoGhosts(w)
  }

  lemma InitInv(p: Params, w: World)
    requires Sound(p) && Init(p, w)
    ensures Inv(p, w)
  {
  }

  /** Clearing the old cell leaves the mover without a cell, and every other
      missile cell where it was. */
  lemma MoverOwnsNothing(p: Params, w: World, k: MissileType, i: nat, hit: Option<Pos>)
    requires Inv(p, w) && Enabled(p, w, Update(k, i, hit))
    ensures var cell := Erase(w.mem, w.Phases(k)[i].from).cell;
      && cell.Keys == Grid(p)
      && forall q | q in cell && IsMissileType(cell[q].ctype) ::
           cell[q] == w.mem.cell[q] && !(cell[q].ctype == CellTypeOf(k) && cell[q].value == i)
  {
  }

  /** The victim of an update is a missile still in its movement loop, not yet
      deleted, placed where the collision happened, and not the mover: a delete
      never reaches a recycled record. */
  lemma VictimIsLive(p: Params, w: World, k: MissileType, i: nat, h: Pos)
    requires Inv(p, w) && Enabled(p, w, Update(k, i, Some(h)))
    requires IsMissileType(w.mem.cell[h].ctype)
    ensures h != w.Phases(k)[i].from
    ensures var v := w.mem.cell[h].value; var kk := TypeOfCell(w.mem.cell[h].ctype);
      && 0 <= v < p.n && Owns(w, kk, v, h) && w.mem.Queue(kk)[v].index == v
      && (kk, v) != (k, i)
  {
    assert SlotOk(p, k, i, w.mem.Queue(k)[i], w.Phases(k)[i]);
    MoverOwnsNothing(p, w, k, i, Some(h));
    var v := w.mem.cell[h].value;
    var kk := TypeOfCell(w.mem.cell[h].ctype);
    assert SlotOk(p, kk, v, w.mem.Queue(kk)[v], w.Phases(kk)[v]);
  }

  /** The memory after an update, cell by cell and record by record. */
  lemma UpdatedCell(p: Params, w: World, k: MissileType, i: nat, hit: Option<Pos>, q: Pos)
    requires Inv(p, w) && Enabled(p, w, Update(k, i, hit)) && q in w.mem.cell
    ensures var r := w.mem.Queue(k)[i]; var from := w.Phases(k)[i].from;
      var m' := Updated(p, w.mem, k, i, from, hit);
      && m'.cell.Keys == w.mem.cell.Keys
      && m'.cell[q] ==
         if r.deleted then w.mem.cell[q]
         else if hit.Some? then
           (if q == from || (q == hit.value && IsMissileType(w.mem.cell[q].ctype)) then BLANK_CELL else w.mem.cell[q])
         else if InBorders(p, r.pos) && q == r.pos then Cell(CellTypeOf(k), i, r.target)
         else if q == from then BLANK_CELL else w.mem.cell[q]
  {
    assert SlotOk(p, k, i, w.mem.Queue(k)[i], w.Phases(k)[i]);
    if hit.Some? && IsMissileType(w.mem.cell[hit.value].ctype) { VictimIsLive(p, w, k, i, hit.value); }
  }

  /** The missile that an update deletes, if any. */
  predicate IsVictim(w: World, k: MissileType, i: nat, hit: Option<Pos>, kk: MissileType, j: int)
    requires hit.Some? ==> hit.value in w.mem.cell
    requires i < |w.mem.Queue(k)|
  {
    && hit.Some? && IsMissileType(w.mem.cell[hit.value].ctype)
    && kk == TypeOfCell(w.mem.cell[hit.value].ctype) && j == w.mem.cell[hit.value].value
  }

  lemma UpdatedRecord(p: Params, w: World, k: MissileType, i: nat, hit: Option<Pos>, kk: MissileType, j: nat)
    requires Inv(p, w) && Enabled(p, w, Update(k, i, hit)) && j < p.n
    ensures var m' := Updated(p, w.mem, k, i, w.Phases(k)[i].from, hit);
      && |m'.Queue(kk)| == p.n
      && m'.Queue(kk)[j] ==
         if IsVictim(w, k, i, hit, kk, j) then w.mem.Queue(kk)[j].(deleted := true) else w.mem.Queue(kk)[j]
  {
    assert SlotOk(p, k, i, w.mem.Queue(k)[i], w.Phases(k)[i]);
    if hit.Some? && IsMissileType(w.mem.cell[hit.value].ctype) { VictimIsLive(p, w, k, i, hit.value); }
  }

  lemma UpdatedPhase(p: Params, w: World, k: MissileType, i: nat, hit: Option<Pos>, kk: MissileType, j: nat)
    requires Inv(p, w) && Enabled(p, w, Update(k, i, hit)) && j < p.n
    ensures var w' := Next(p, w, Update(k, i, hit));
      && w'.mem == Updated(p, w.mem, k, i, w.Phases(k)[i].from, hit)
      && |w'.Phases(kk)| == p.n && w'.launcher == w.launcher
      && w'.Phases(kk)[j] ==
         if (kk, j) == (k, i) then (if UpdateCollides(p, w.mem, k, i, hit) then Done else Loop(true))
         else w.Phases(kk)[j]
  {
  }

  lemma UpdateKeepsSlot(p: Params, w: World, k: MissileType, i: nat, hit: Option<Pos>, kk: MissileType, j: nat)
    requires Inv(p, w) && Enabled(p, w, Update(k, i, hit)) && j < p.n
    ensures var w' := Next(p, w, Update(k, i, hit));
      && |w'.mem.Queue(kk)| == p.n && |w'.Phases(kk)| == p.n
      && SlotOk(p, kk, j, w'.mem.Queue(kk)[j], w'.Phases(kk)[j])
  {
    assert SlotOk(p, kk, j, w.mem.Queue(kk)[j], w.Phases(kk)[j]);
    UpdatedRecord(p, w, k, i, hit, kk, j);
    UpdatedPhase(p, w, k, i, hit, kk, j);
    if IsVictim(w, k, i, hit, kk, j) { VictimIsLive(p, w, k, i, hit.value); }
  }

  /** A missile cell after an update still has its missile, and no cell's value
      leaves the arrays. */
  lemma UpdateKeepsCell(p: Params, w: World, k: MissileType, i: nat, hit: Option<Pos>, q: Pos)
    requires Inv(p, w) && Enabled(p, w, Update(k, i, hit)) && q in w.mem.cell
    ensures var w' := Next(p, w, Update(k, i, hit));
      && w'.mem.cell.Keys == w.mem.cell.Keys
      && w'.mem.cell[q].value < p.n
      && (IsMissileType(w'.mem.cell[q].ctype) ==>
            w'.mem.cell[q].value >= 0 && Owns(w', TypeOfCell(w'.mem.cell[q].ctype), w'.mem.cell[q].value, q))
  {
    var w' := Next(p, w, Update(k, i, hit));
    UpdatedCell(p, w, k, i, hit, q);
    UpdatedPhase(p, w, k, i, hit, k, i);
    var c := w'.mem.cell[q];
    if IsMissileType(c.ctype) {
      var kk := TypeOfCell(c.ctype);
      var r := w.mem.Queue(k)[i];
      assert SlotOk(p, k, i, r, w.Phases(k)[i]);
      if c == w.mem.cell[q] {
        assert Owns(w, kk, c.value, q);
        UpdatedRecord(p, w, k, i, hit, kk, c.value);
        UpdatedPhase(p, w, k, i, hit, kk, c.value);
        if IsVictim(w, k, i, hit, kk, c.value) { VictimIsLive(p, w, k, i, hit.value); }
      } else {
        UpdatedRecord(p, w, k, i, hit, k, i);
      }
    }
  }

  lemma UpdateStepInv(p: Params, w: World, k: MissileType, i: nat, hit: Option<Pos>)
    requires Sound(p) && Inv(p, w) && Enabled(p, w, Update(k, i, hit))
    ensures Inv(p, Next(p, w, Update(k, i, hit)))
  {
    var w' := Next(p, w, Update(k, i, hit));
    UpdatedPhase(p, w, k, i, hit, ATTACKER, 0);
    UpdatedPhase(p, w, k, i, hit, DEFENDER, 0);
    UpdatedRecord(p, w, k, i, hit, ATTACKER, 0);
    UpdatedRecord(p, w, k, i, hit, DEFENDER, 0);
    UpdatedCell(p, w, k, i, hit, w.Phases(k)[i].from);
    forall q | q in w'.mem.cell
      ensures w'.mem.cell[q].value < p.n
      ensures IsMissileType(w'.mem.cell[q].ctype) ==>
        w'.mem.cell[q].value >= 0 && Owns(w', TypeOfCell(w'.mem.cell[q].ctype), w'.mem.cell[q].value, q)
    {
      UpdateKeepsCell(p, w, k, i, hit, q);
    }
    forall kk: MissileType, j | 0 <= j < p.n ensures SlotOk(p, kk, j, w'.mem.Queue(kk)[j], w'.Phases(kk)[j]) {
      UpdateKeepsSlot(p, w, k, i, hit, kk, j);
    }
    if !w.launcher.Seeking? { UpdatedPhase(p, w, k, i, hit, DEFENDER, w.launcher.t); }
  }

  /** Events that touch one record, away from the grid. */
  lemma RecordStepInv(p: Params, w: World, e: Event)
    requires Inv(p, w) && Enabled(p, w, e) && !e.Update? && !e.Search?
    ensures Inv(p, Next(p, w, e))
  {
    var w' := Next(p, w, e);
    assert Typed(p, w');
    forall k: MissileType, i | 0 <= i < p.n
      ensures SlotOk(p, k, i, w'.mem.Queue(k)[i], w'.Phases(k)[i])
    {
      RecordStepSlot(p, w, e, k, i);
    }
    forall q | q in w'.mem.cell && IsMissileType(w'.mem.cell[q].ctype)
      ensures Owns(w', TypeOfCell(w'.mem.cell[q].ctype), w'.mem.cell[q].value, q)
    {
      RecordStepOwns(p, w, e, q);
    }
    LauncherOk(p, w, e);
  }

  lemma RecordStepSlot(p: Params, w: World, e: Event, k: MissileType, i: nat)
    requires Inv(p, w) && Enabled(p, w, e) && !e.Update? && !e.Search? && i < p.n
    ensures var w' := Next(p, w, e);
      && |w'.mem.Queue(k)| == p.n && |w'.Phases(k)| == p.n
      && SlotOk(p, k, i, w'.mem.Queue(k)[i], w'.Phases(k)[i])
  {
    assert SlotOk(p, k, i, w.mem.Queue(k)[i], w.Phases(k)[i]);
  }

  /** No record event touches a missile that owns a cell, except to move it on. */
  lemma RecordStepOwns(p: Params, w: World, e: Event, q: Pos)
    requires Inv(p, w) && Enabled(p, w, e) && !e.Update? && !e.Search?
    requires q in w.mem.cell && IsMissileType(w.mem.cell[q].ctype)
    ensures Next(p, w, e).mem.cell == w.mem.cell
    ensures Owns(Next(p, w, e), TypeOfCell(w.mem.cell[q].ctype), w.mem.cell[q].value, q)
  {
    assert Owns(w, TypeOfCell(w.mem.cell[q].ctype), w.mem.cell[q].value, q);
  }

  /** The launcher's index stays free until the launcher uses it. */
  lemma LauncherOk(p: Params, w: World, e: Event)
    requires Inv(p, w) && Enabled(p, w, e) && !e.Update?
    ensures var w' := Next(p, w, e);
      !w'.launcher.Seeking? ==> w'.launcher.t < p.n && |w'.defPhase| == p.n && w'.defPhase[w'.launcher.t].Free?
  {
  }

  /** The only record a search changes is the attacker its cell names. */
  lemma SearchStepInv(p: Params, w: World, e: Event)
    requires Inv(p, w) && Enabled(p, w, e) && e.Search?
    ensures Inv(p, Next(p, w, e))
  {
    var w' := Next(p, w, e);
    assert Typed(p, w');
    forall k: MissileType, i | 0 <= i < p.n
      ensures SlotOk(p, k, i, w'.mem.Queue(k)[i], w'.Phases(k)[i])
    {
      assert SlotOk(p, k, i, w.mem.Queue(k)[i], w.Phases(k)[i]);
    }
    forall q | q in w'.mem.cell && IsMissileType(w'.mem.cell[q].ctype)
      ensures Owns(w', TypeOfCell(w'.mem.cell[q].ctype), w'.mem.cell[q].value, q)
    {
      assert Owns(w, TypeOfCell(w.mem.cell[q].ctype), w.mem.cell[q].value, q);
    }
    LauncherOk(p, w, e);
  }

  lemma StepInv(p: Params, w: World, e: Event)
    requires Sound(p) && Inv(p, w) && Enabled(p, w, e)
    ensures Inv(p, Next(p, w, e))
  {
    match e
    case Update(k, i, hit) => UpdateStepInv(p, w, k, i, hit);
    case Search(_, _) => SearchStepInv(p, w, e);
    case _ => RecordStepInv(p, w, e);
  }
}
