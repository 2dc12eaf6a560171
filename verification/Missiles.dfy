/** The shared memory of the simulation as a value: the cell grid and the score
    of env_t (gestor.c) and the two missile arrays (launchers.c). */
module Missiles {
  import opened Options

  const NONE := -1
  const EMPTY_CELL := -1
  const OTHER_CELL := -2

  /** The sizes the program fixes with #define. goalY is GOAL_START_Y, span is
      MISSILE_RADIUS, n is N. */
  datatype Params = Params(xwin: int, ywin: int, thick: int, goalY: int, span: int, n: nat)

  const DEFAULT := Params(640, 480, 2, 384, 5, 4)

  ghost predicate Sound(p: Params) {
    p.xwin > 0 && p.ywin > 0 && p.thick >= 2 && p.span >= 1 && p.n >= 1
  }

  datatype MissileType = ATTACKER | DEFENDER

  datatype CellType = WALL | GOAL | EMPTY | ATK_MISSILE | DEF_MISSILE

  datatype Cell = Cell(ctype: CellType, value: int, target: int)

  datatype Pos = Pos(x: int, y: int)

  /** missile_t without speed, angle and the fractional position, which only
      move_missile reads. */
  datatype Missile = Missile(pos: Pos, index: int, deleted: bool, target: int, mtype: MissileType)

  /** init_empty_missile, lines 104-112 of launchers.c. It leaves the type alone;
      a static array starts with type 0. */
  const EMPTY_MISSILE := Missile(Pos(0, 0), NONE, false, NONE, ATTACKER)

  datatype Memory = Memory(
    cell: map<Pos, Cell>, atk: seq<Missile>, def: seq<Missile>, atkPoints: int, defPoints: int)
  {
    /** The queue[] array of a missile type. */
    function Queue(k: MissileType): seq<Missile> {
      if k.ATTACKER? then atk else def
    }

    function SetMissile(k: MissileType, i: nat, m: Missile): Memory
      requires i < |Queue(k)|
    {
      if k.ATTACKER? then this.(atk := atk[i := m]) else this.(def := def[i := m])
    }
  }

  // ----- cells -----

  const BLANK_CELL := Cell(EMPTY, EMPTY_CELL, EMPTY_CELL)

  /** wall_init_check, lines 74-80. */
  predicate IsWall(p: Params, q: Pos) {
    q.x < p.thick || q.y < p.thick || p.xwin - q.x < p.thick || p.ywin - q.y < p.thick
  }

  /** goal_init_check, lines 62-65. */
  predicate IsGoal(p: Params, q: Pos) {
    q.y > p.goalY
  }

  /** init_cell, lines 121-135. */
  function InitCell(p: Params, q: Pos): Cell {
    if IsWall(p, q) then Cell(WALL, OTHER_CELL, OTHER_CELL)
    else if IsGoal(p, q) then Cell(GOAL, OTHER_CELL, OTHER_CELL)
    else BLANK_CELL
  }

  /** Wall and goal cells: the part of the screen that never moves. */
  predicate Static(p: Params, q: Pos) {
    IsWall(p, q) || IsGoal(p, q)
  }

  /** Far enough from the walls and the goal for the scan box to miss them. */
  predicate Inside(p: Params, q: Pos) {
    && p.thick + p.span <= q.x <= p.xwin - p.thick - p.span + 1
    && p.thick + p.span <= q.y <= p.ywin - p.thick - p.span + 1
    && q.y <= p.goalY - p.span + 1
  }

  predicate InBorders(p: Params, q: Pos) {
    0 <= q.x < p.xwin && 0 <= q.y < p.ywin
  }

  predicate IsEmpty(c: Cell) {
    c.ctype == EMPTY || c.value == EMPTY_CELL
  }

  function CellTypeOf(k: MissileType): CellType {
    if k.ATTACKER? then ATK_MISSILE else DEF_MISSILE
  }

  predicate IsMissileType(t: CellType) {
    t == ATK_MISSILE || t == DEF_MISSILE
  }

  function TypeOfCell(t: CellType): MissileType {
    if t == ATK_MISSILE then ATTACKER else DEFENDER
  }

  /** All positions of the grid. */
  ghost function Grid(p: Params): (r: set<Pos>)
    ensures forall q :: q in r <==> InBorders(p, q)
  {
    var r := set x: int, y: int | 0 <= x < p.xwin && 0 <= y < p.ywin :: Pos(x, y);
    assert forall q :: InBorders(p, q) ==> q == Pos(q.x, q.y);
    r
  }

  /** Every access of the memory below is in bounds. */
  ghost predicate WellFormed(p: Params, m: Memory) {
    && m.cell.Keys == Grid(p)
    && |m.atk| == p.n && |m.def| == p.n
    && forall q | q in m.cell ::
         m.cell[q].value < p.n && (IsMissileType(m.cell[q].ctype) ==> m.cell[q].value >= 0)
  }

  // ----- the collision scan -----

  /** The columns xa..xb-1 and the rows ya..yb-1. */
  datatype Box = Box(xa: int, ya: int, xb: int, yb: int)

  /** The box scanned around a missile, lines 523-526, clamped to the window. */
  function BoxAround(p: Params, centre: Pos): Box {
    Box(if centre.x - p.span >= 0 then centre.x - p.span else 0,
        if centre.y - p.span >= 0 then centre.y - p.span else 0,
        if centre.x + p.span < p.xwin then centre.x + p.span else p.xwin,
        if centre.y + p.span < p.ywin then centre.y + p.span else p.ywin)
  }

  predicate InBox(b: Box, q: Pos) {
    b.xa <= q.x < b.xb && b.ya <= q.y < b.yb
  }

  /** A cell that stops a missile: not empty and not the missile's own. */
  predicate Offends(c: Cell, k: MissileType, index: int) {
    (c.value != index || c.ctype != CellTypeOf(k)) && !IsEmpty(c)
  }

  /** The order in which x-outer, y-inner loops visit the grid. */
  predicate ColumnMajor(a: Pos, b: Pos) {
    a.x < b.x || (a.x == b.x && a.y < b.y)
  }

  /** The order in which y-outer, x-inner loops visit the grid. */
  predicate RowMajor(a: Pos, b: Pos) {
    a.y < b.y || (a.y == b.y && a.x < b.x)
  }

  /** `hit` is the first cell of the box, in scan order, that stops a missile of
      type k and index `index`, or None if no cell of the box does. */
  ghost predicate FirstHit(cell: map<Pos, Cell>, b: Box, k: MissileType, index: int, hit: Option<Pos>) {
    match hit
    case None => forall q | q in cell && InBox(b, q) :: !Offends(cell[q], k, index)
    case Some(h) =>
      && h in cell && InBox(b, h) && Offends(cell[h], k, index)
      && forall q | q in cell && InBox(b, q) && ColumnMajor(q, h) :: !Offends(cell[q], k, index)
  }

  /** The scan has one outcome. */
  lemma FirstHitUnique(cell: map<Pos, Cell>, b: Box, k: MissileType, index: int, h: Option<Pos>, h': Option<Pos>)
    requires FirstHit(cell, b, k, index, h) && FirstHit(cell, b, k, index, h')
    ensures h == h'
  {
    if h.Some? && h'.Some? {
      assert ColumnMajor(h.value, h'.value) || ColumnMajor(h'.value, h.value) || h.value == h'.value;
    }
  }

  // ----- the updates of one critical section -----

  function Erase(m: Memory, q: Pos): Memory {
    m.(cell := m.cell[q := BLANK_CELL])
  }

  /** delete_atk_missile and delete_def_missile. */
  function Delete(m: Memory, k: MissileType, i: nat): Memory
    requires i < |m.Queue(k)|
  {
    m.SetMissile(k, i, m.Queue(k)[i].(deleted := true))
  }

  /** handle_collision_by_cell_type, lines 410-431. */
  function DestroyCell(m: Memory, q: Pos): Memory
    requires q in m.cell
    requires IsMissileType(m.cell[q].ctype) ==> 0 <= m.cell[q].value < |m.Queue(TypeOfCell(m.cell[q].ctype))|
  {
    var c := m.cell[q];
    if IsMissileType(c.ctype) then Erase(Delete(m, TypeOfCell(c.ctype), c.value), q) else m
  }

  /** An attacker and a defender met: the defender scores. */
  predicate DefScores(k: MissileType, t: CellType) {
    (k.ATTACKER? && t == DEF_MISSILE) || (k.DEFENDER? && t == ATK_MISSILE)
  }

  /** An attacker reached the goal. */
  predicate AtkScores(k: MissileType, t: CellType) {
    k.ATTACKER? && t == GOAL
  }

  /** handle_collision on a cell that is not empty, lines 440-466. */
  function Collide(m: Memory, k: MissileType, q: Pos): Memory
    requires q in m.cell
    requires IsMissileType(m.cell[q].ctype) ==> 0 <= m.cell[q].value < |m.Queue(TypeOfCell(m.cell[q].ctype))|
  {
    var t := m.cell[q].ctype;
    var d := DestroyCell(m, q);
    d.(defPoints := d.defPoints + (if DefScores(k, t) then 1 else 0),
       atkPoints := d.atkPoints + (if AtkScores(k, t) then 1 else 0))
  }

  /** update_missile_cell, lines 539-551. */
  function PlaceCell(m: Memory, r: Missile): Memory {
    m.(cell := m.cell[r.pos := Cell(CellTypeOf(r.mtype), r.index, r.target)])
  }

  /** What the scan of update_missile_env finds for missile (k, i) that was at
      `from`: nothing is scanned for a deleted missile or outside the window. */
  ghost predicate UpdateFinds(p: Params, m: Memory, k: MissileType, i: nat, from: Pos, hit: Option<Pos>)
    requires WellFormed(p, m) && i < p.n && InBorders(p, from)
  {
    var r := m.Queue(k)[i];
    if r.deleted || !InBorders(p, r.pos) then hit == None
    else FirstHit(Erase(m, from).cell, BoxAround(p, r.pos), r.mtype, r.index, hit)
  }

  /** Whether update_missile_env reports a collision. */
  predicate UpdateCollides(p: Params, m: Memory, k: MissileType, i: nat, hit: Option<Pos>)
    requires i < |m.Queue(k)|
  {
    m.Queue(k)[i].deleted || !InBorders(p, m.Queue(k)[i].pos) || hit.Some?
  }

  /** update_missile_env, lines 585-604, given what its scan finds. */
  ghost function Updated(p: Params, m: Memory, k: MissileType, i: nat, from: Pos, hit: Option<Pos>): Memory
    requires WellFormed(p, m) && i < p.n && InBorders(p, from)
    requires UpdateFinds(p, m, k, i, from, hit)
  {
    var r := m.Queue(k)[i];
    if r.deleted then m
    else if hit.Some? then Collide(Erase(m, from), r.mtype, hit.value)
    else if !InBorders(p, r.pos) then Erase(m, from)
    else PlaceCell(Erase(m, from), r)
  }

  // ----- a missile record over its life (launchers.c) -----

  /** set_random_start, lines 486-494; the column is random. */
  function AtkSpawn(p: Params, x: int): Pos {
    Pos(x, p.thick + p.span + 1)
  }

  /** set_missile_trajectory, lines 819-822; the row is DEF_MISSILE_START_Y. */
  function DefSpawn(p: Params, x: int): Pos {
    Pos(x, p.goalY - p.span - 1)
  }

  /** init_atk_missile, lines 507-513. */
  function NewAttacker(p: Params, i: int, x: int): Missile {
    Missile(AtkSpawn(p, x), i, false, NONE, ATTACKER)
  }

  /** init_def_missile, lines 882-887. */
  function NewDefender(i: int): Missile {
    Missile(Pos(0, 0), i, false, NONE, DEFENDER)
  }

  /** init_empty_missile on a used record. */
  function Emptied(r: Missile): Missile {
    EMPTY_MISSILE.(mtype := r.mtype)
  }

  // ----- the two target searches -----

  /** is_already_tracked, lines 601-617. */
  ghost predicate Tracked(m: Memory, target: int) {
    target >= 0 && exists i :: 0 <= i < |m.def| && m.def[i].index == target
  }

  /** check_pixel, lines 648-662; `red` are the screen pixels of ATTACKER_COLOR. */
  ghost predicate Candidate(m: Memory, red: set<Pos>, q: Pos) {
    q in m.cell && q in red && m.cell[q].value >= 0 && !Tracked(m, m.cell[q].target)
  }

  /** What search_screen_for_target finds: the row-major first candidate. */
  ghost predicate SearchFinds(m: Memory, red: set<Pos>, found: Option<Pos>) {
    match found
    case None => forall q | q in m.cell :: !Candidate(m, red, q)
    case Some(f) => Candidate(m, red, f) && forall q | q in m.cell && RowMajor(q, f) :: !Candidate(m, red, q)
  }

  /** search_screen_for_target, lines 671-696, given what it finds. The attacker
      record is chosen by the cell's value whatever the cell's type. */
  function Assigned(m: Memory, found: Option<Pos>, t: int): Memory
    requires found.Some? ==> found.value in m.cell && 0 <= m.cell[found.value].value < |m.atk|
  {
    match found
    case None => m
    case Some(f) =>
      var c := m.cell[f];
      m.(atk := m.atk[c.value := m.atk[c.value].(target := t)], cell := m.cell[f := c.(target := t)])
  }

  /** What scan_env_for_target_pos returns: the column-major first cell with that
      target, or (NONE, NONE). */
  ghost predicate ScanFinds(m: Memory, target: int, r: Pos) {
    || (r in m.cell && m.cell[r].target == target
        && forall q | q in m.cell && ColumnMajor(q, r) :: m.cell[q].target != target)
    || (r == Pos(NONE, NONE) && forall q | q in m.cell :: m.cell[q].target != target)
  }
}
