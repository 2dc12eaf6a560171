/** A run in which the program's own screen misleads the search: a defender flies over
    the legend, whose rectangle has the colour of an attacker.

    Every position is one that move_missile computes, in exact arithmetic. The attacker
    has speed 30 and an angle with cosine 56/65 and sine 33/65, between the 30 and 150
    degrees of set_random_start; a period is 10 ms. The defender has speed -130 and the
    angle 90; a period is 15 ms. */
module WorldLegend {
  import opened Options
  import opened Missiles
  import opened World
  import opened WorldScore
  import opened WorldAgreement
  import opened WorldTracking
  import opened Interception
  import RealAlgebra

  /** The rectangle that draw_legend fills with ATTACKER_COLOR (gestor.c, lines 710-737). */
  ghost function LegendRectangle(): set<Pos> {
    set x, y | 510 <= x <= 520 && 50 <= y <= 58 :: Pos(x, y)
  }

  /** The column in which the attacker is drawn. */
  const DRAWN_COLUMN := 439

  /** The column in which the defender starts. */
  const START_COLUMN := 515

  /** The attacker after k periods: 0.3 * 56/65 columns and 0.3 * 33/65 rows each. */
  function AtkAt(k: nat): Pos {
    Pos(DRAWN_COLUMN + 168 * k / 650, 8 + 99 * k / 650)
  }

  /** The defender k periods after its start: 1.95 rows each. */
  function DefAt(k: nat): Pos {
    Pos(START_COLUMN, (37800 - 195 * k) / 100)
  }

  /** The attacker stays between the rows 8 and 50 for 277 periods, the defender between
      the rows 58 and 378 for 164. */
  lemma Rows(i: nat, k: nat)
    requires i <= 277 && k <= 164
    ensures Inside(DEFAULT, AtkAt(i)) && Inside(DEFAULT, DefAt(k)) && AtkAt(i).y + 8 <= DefAt(k).y
    ensures AtkAt(0) == AtkAt(1) == AtkSpawn(DEFAULT, DRAWN_COLUMN) && DefAt(0) == DefSpawn(DEFAULT, START_COLUMN)
  {
  }

  ghost function InitGrid(): map<Pos, Cell> {
    map q | q in Grid(DEFAULT) :: InitCell(DEFAULT, q)
  }

  /** The grid with the attacker alone, assigned t. */
  ghost function AttackerGrid(a: Pos, t: int): map<Pos, Cell> {
    InitGrid()[a := Cell(ATK_MISSILE, 0, t)]
  }

  /** The grid with the attacker, and with the defender once it is placed. */
  ghost function FlightGrid(a: Pos, d: Pos, placed: bool): map<Pos, Cell> {
    if placed then AttackerGrid(a, 0)[d := Cell(DEF_MISSILE, 0, NONE)] else AttackerGrid(a, 0)
  }

  /** The parts of the state that the run is about: the grid, attacker 0 in its loop,
      defender 0, and the launcher. */
  ghost predicate At(w: World, cell: map<Pos, Cell>, a: Missile, d: Missile, ph: Phase, l: Launcher) {
    && Inv(DEFAULT, w)
    && w.mem.cell == cell
    && w.mem.atk[0] == a && w.atkPhase[0] == Loop(true)
    && w.mem.def[0] == d && w.defPhase[0] == ph && w.launcher == l
    && w.defPhase[1].Free? && (forall i | 0 <= i < 4 :: w.mem.def[i].target == NONE)
  }

  /** Attacker 0 at a, assigned t. */
  function Attacker(a: Pos, t: int): Missile {
    Missile(a, 0, false, t, ATTACKER)
  }

  // ----- attacker 0 is launched and placed -----

  ghost function Attack(): Run {
    [LaunchAtk(0, DRAWN_COLUMN), Move(ATTACKER, 0, AtkAt(1)), Update(ATTACKER, 0, None)]
  }

  lemma InitialState(w0: World)
    requires Init(DEFAULT, w0)
    ensures w0.mem.cell == InitGrid() && w0.launcher.Seeking? && Inv(DEFAULT, w0) && w0.atkPhase[0].Free?
    ensures forall i | 0 <= i < 4 :: w0.mem.def[i] == EMPTY_MISSILE && w0.defPhase[i].Free?
  {
    InitInv(DEFAULT, w0);
    assert w0.Phases(ATTACKER)[0].Free?;
    forall i | 0 <= i < 4 ensures w0.mem.def[i] == EMPTY_MISSILE && w0.defPhase[i].Free? {
      assert w0.mem.Queue(DEFENDER)[i] == EMPTY_MISSILE && w0.Phases(DEFENDER)[i].Free?;
    }
  }

  lemma AttackRun(w0: World)
    requires Init(DEFAULT, w0)
    ensures Feasible(DEFAULT, w0, Attack())
    ensures At(Exec(DEFAULT, w0, Attack()), AttackerGrid(AtkAt(1), NONE), Attacker(AtkAt(1), NONE),
               EMPTY_MISSILE, Free, Seeking)
  {
    InitialState(w0);
    Rows(1, 0);
    EmptyAround(DEFAULT, AtkAt(1));
    var w := LaunchAndPlace(DEFAULT, w0, 0, DRAWN_COLUMN);
    AfterAttack(w0, w);
  }

  lemma AfterAttack(w0: World, w: World)
    requires w0.mem.cell == InitGrid() && w0.launcher.Seeking? && |w0.mem.atk| == 4 && |w0.atkPhase| == 4
    requires |w0.mem.def| == 4 && |w0.defPhase| == 4
    requires forall i | 0 <= i < 4 :: w0.mem.def[i] == EMPTY_MISSILE && w0.defPhase[i].Free?
    requires Inv(DEFAULT, w) && w.mem.cell == w0.mem.cell[AtkAt(1) := Cell(ATK_MISSILE, 0, NONE)]
    requires w.mem.atk == w0.mem.atk[0 := Attacker(AtkAt(1), NONE)] && w.atkPhase == w0.atkPhase[0 := Loop(true)]
    requires w.mem.def == w0.mem.def && w.defPhase == w0.defPhase && w.launcher == w0.launcher
    ensures At(w, AttackerGrid(AtkAt(1), NONE), Attacker(AtkAt(1), NONE), EMPTY_MISSILE, Free, Seeking)
  {
  }

  // ----- defender 0 is assigned to it -----

  lemma AcquireStep(w: World, cell: map<Pos, Cell>, a: Missile, d: Missile, ph: Phase, i: nat)
    requires At(w, cell, a, d, ph, Seeking) && i < 2 && (i == 0 ==> ph.Free?)
    ensures Enabled(DEFAULT, w, Acquire(i))
    ensures At(Next(DEFAULT, w, Acquire(i)), cell, a, d, ph, Holding(i))
  {
    StepInv(DEFAULT, w, Acquire(i));
  }

  /** The screen: the attacker's own pixel and the legend. */
  ghost function RedPixels(a: Pos): set<Pos> {
    LegendRectangle() + {a}
  }

  ghost function FirstSearch(): Event {
    Search(RedPixels(AtkAt(1)), Some(AtkAt(1)))
  }

  lemma SearchStep(w: World, d: Missile, ph: Phase)
    requires At(w, AttackerGrid(AtkAt(1), NONE), Attacker(AtkAt(1), NONE), d, ph, Holding(0))
    ensures Enabled(DEFAULT, w, FirstSearch())
    ensures At(Next(DEFAULT, w, FirstSearch()), AttackerGrid(AtkAt(1), 0), Attacker(AtkAt(1), 0), d, ph, Found(0))
  {
    Rows(1, 0);
    assert Candidate(w.mem, RedPixels(AtkAt(1)), AtkAt(1));
    assert SearchFinds(w.mem, RedPixels(AtkAt(1)), Some(AtkAt(1)));
    StepInv(DEFAULT, w, FirstSearch());
    assert AttackerGrid(AtkAt(1), NONE)[AtkAt(1) := Cell(ATK_MISSILE, 0, 0)] == AttackerGrid(AtkAt(1), 0);
  }

  lemma LaunchStep(w: World, cell: map<Pos, Cell>, a: Missile, d: Missile, ph: Phase)
    requires At(w, cell, a, d, ph, Found(0))
    ensures Enabled(DEFAULT, w, LaunchDef)
    ensures At(Next(DEFAULT, w, LaunchDef), cell, a, NewDefender(0), Ready, Seeking)
  {
    StepInv(DEFAULT, w, LaunchDef);
  }

  ghost function FirstTarget(): Run {
    Attack() + [Acquire(0)] + [FirstSearch()] + [LaunchDef]
  }

  lemma FirstTargetRun(w0: World)
    requires Init(DEFAULT, w0)
    ensures Feasible(DEFAULT, w0, FirstTarget()) && Flying(Exec(DEFAULT, w0, FirstTarget()), AtkAt(1), DefAt(0), Ready)
  {
    InitInv(DEFAULT, w0);
    AttackRun(w0);
    var r, a := Attack(), Attacker(AtkAt(1), NONE);
    AcquireStep(Exec(DEFAULT, w0, r), AttackerGrid(AtkAt(1), NONE), a, EMPTY_MISSILE, Free, 0);
    RunExtends(DEFAULT, w0, r, Acquire(0));
    r := r + [Acquire(0)];
    SearchStep(Exec(DEFAULT, w0, r), EMPTY_MISSILE, Free);
    RunExtends(DEFAULT, w0, r, FirstSearch());
    r := r + [FirstSearch()];
    LaunchStep(Exec(DEFAULT, w0, r), AttackerGrid(AtkAt(1), 0), Attacker(AtkAt(1), 0), EMPTY_MISSILE, Free);
    RunExtends(DEFAULT, w0, r, LaunchDef);
  }

  // ----- both fly -----

  /** The attacker at a, and the defender computing its start, or at d. */
  ghost predicate Flying(w: World, a: Pos, d: Pos, ph: Phase) {
    At(w, FlightGrid(a, d, ph == Loop(true)), Attacker(a, 0),
       if ph.Ready? then NewDefender(0) else NewDefender(0).(pos := d), ph, Seeking)
  }

  /** Both are inside, the attacker above the defender and out of its box. */
  predicate Apart(a: Pos, d: Pos) {
    Inside(DEFAULT, a) && Inside(DEFAULT, d) && a.y + 6 <= d.y
  }

  /** Around either missile's next position there is nothing but its old cell. */
  lemma NothingAround(a: Pos, d: Pos, placed: bool, mover: Pos, to: Pos, c: Pos)
    requires Inside(DEFAULT, to) && InBorders(DEFAULT, c) && c != mover && InBox(BoxAround(DEFAULT, to), c)
    requires mover == a || mover == d
    requires a.y + 6 <= d.y && (if mover == a then to.y + 6 <= d.y else a.y + 6 <= to.y)
    ensures FlightGrid(a, d, placed)[c] == BLANK_CELL
  {
    EmptyAround(DEFAULT, to);
  }

  lemma AttackerMovesOn(a: Pos, to: Pos, d: Pos, placed: bool)
    requires Inside(DEFAULT, a) && Inside(DEFAULT, to) && a != d && to != d
    ensures FlightGrid(a, d, placed)[a := BLANK_CELL][to := Cell(ATK_MISSILE, 0, 0)] == FlightGrid(to, d, placed)
  {
    assert InitGrid()[a] == BLANK_CELL;
  }

  lemma DefenderMovesOn(a: Pos, d: Pos, to: Pos, placed: bool)
    requires Inside(DEFAULT, d) && Inside(DEFAULT, to) && a != d && a != to
    ensures FlightGrid(a, d, placed)[d := BLANK_CELL][to := Cell(DEF_MISSILE, 0, NONE)] == FlightGrid(a, to, true)
  {
    assert InitGrid()[d] == BLANK_CELL;
  }

  /** What a period of the attacker leaves alone. */
  lemma AfterAttacker(w: World, w': World, a: Pos, to: Pos, d: Pos, ph: Phase)
    requires Flying(w, a, d, ph) && Inv(DEFAULT, w')
    requires w'.mem.cell == FlightGrid(to, d, ph == Loop(true))
    requires w'.mem.atk == w.mem.atk[0 := Attacker(to, 0)] && w'.atkPhase == w.atkPhase[0 := Loop(true)]
    requires w'.mem.def == w.mem.def && w'.defPhase == w.defPhase && w'.launcher == w.launcher
    ensures Flying(w', to, d, ph)
  {
  }

  lemma AfterDefender(w: World, w': World, a: Pos, d: Pos, to: Pos, ph: Phase)
    requires Flying(w, a, d, ph) && Inv(DEFAULT, w') && ph.Loop?
    requires w'.mem.cell == FlightGrid(a, to, true)
    requires w'.mem.def == w.mem.def[0 := NewDefender(0).(pos := to)]
    requires w'.defPhase == w.defPhase[0 := Loop(true)]
    requires w'.mem.atk == w.mem.atk && w'.atkPhase == w.atkPhase && w'.launcher == w.launcher
    ensures Flying(w', a, to, Loop(true))
  {
  }

  lemma AttackerFlies(w: World, a: Pos, to: Pos, d: Pos, ph: Phase)
    requires Flying(w, a, d, ph) && Apart(a, d) && Apart(to, d)
    ensures var run := Period(ATTACKER, 0, to);
      Feasible(DEFAULT, w, run) && Flying(Exec(DEFAULT, w, run), to, d, ph)
  {
    forall c | c in w.mem.cell && c != a && InBox(BoxAround(DEFAULT, to), c) ensures w.mem.cell[c] == BLANK_CELL {
      NothingAround(a, d, ph == Loop(true), a, to, c);
    }
    var w' := FlyAndPlace(DEFAULT, w, ATTACKER, 0, to);
    AttackerMovesOn(a, to, d, ph == Loop(true));
    assert w'.mem.Queue(DEFENDER) == w.mem.Queue(DEFENDER) && w'.Phases(DEFENDER) == w.Phases(DEFENDER);
    AfterAttacker(w, w', a, to, d, ph);
  }

  lemma DefenderFlies(w: World, a: Pos, d: Pos, to: Pos, ph: Phase)
    requires Flying(w, a, d, ph) && Apart(a, d) && Apart(a, to) && ph.Loop?
    ensures var run := Period(DEFENDER, 0, to);
      Feasible(DEFAULT, w, run) && Flying(Exec(DEFAULT, w, run), a, to, Loop(true))
  {
    forall c | c in w.mem.cell && c != d && InBox(BoxAround(DEFAULT, to), c) ensures w.mem.cell[c] == BLANK_CELL {
      NothingAround(a, d, ph == Loop(true), d, to, c);
    }
    var w' := FlyAndPlace(DEFAULT, w, DEFENDER, 0, to);
    DefenderMovesOn(a, d, to, ph == Loop(true));
    assert w'.mem.Queue(ATTACKER) == w.mem.Queue(ATTACKER) && w'.Phases(ATTACKER) == w.Phases(ATTACKER);
    AfterDefender(w, w', a, d, to, ph);
  }

  /** Which missile moves, and where to, period by period. */
  type Plan = seq<(MissileType, Pos)>

  ghost function PlanRun(plan: Plan): Run {
    if plan == [] then [] else Period(plan[0].0, 0, plan[0].1) + PlanRun(plan[1..])
  }

  /** The plan keeps the missiles apart, and ends with them at a' and d'. */
  ghost predicate Leads(a: Pos, d: Pos, plan: Plan, a': Pos, d': Pos)
    decreases |plan|
  {
    && Apart(a, d)
    && if plan == [] then a == a' && d == d'
       else if plan[0].0.ATTACKER? then Leads(plan[0].1, d, plan[1..], a', d')
       else Leads(a, plan[0].1, plan[1..], a', d')
  }

  /** The defender is placed by its first move. */
  ghost function PhaseAfter(plan: Plan, ph: Phase): Phase {
    if exists m | m in plan :: m.0.DEFENDER? then Loop(true) else ph
  }

  lemma {:induction false} PlanFlies(w: World, a: Pos, d: Pos, ph: Phase, plan: Plan, a': Pos, d': Pos)
    requires Flying(w, a, d, ph) && Leads(a, d, plan, a', d')
    requires ph.Loop? || forall m | m in plan :: m.0.ATTACKER?
    ensures Feasible(DEFAULT, w, PlanRun(plan))
    ensures Flying(Exec(DEFAULT, w, PlanRun(plan)), a', d', PhaseAfter(plan, ph))
    decreases |plan|
  {
    if plan != [] {
      var (k, to) := plan[0];
      var rest := plan[1..];
      assert plan == [plan[0]] + rest;
      var r := Period(k, 0, to);
      if k.ATTACKER? {
        AttackerFlies(w, a, to, d, ph);
        PlanFlies(Exec(DEFAULT, w, r), to, d, ph, rest, a', d');
        assert PhaseAfter(plan, ph) == PhaseAfter(rest, ph);
      } else {
        assert plan[0] in plan;
        DefenderFlies(w, a, d, to, ph);
        PlanFlies(Exec(DEFAULT, w, r), a, to, Loop(true), rest, a', d');
      }
      RunAppend(DEFAULT, w, r, PlanRun(rest));
    }
  }

  // ----- the plan that the speeds give -----

  /** The attacker alone, from its period i to its period n. */
  ghost function SamplingPlan(i: nat, n: nat): Plan
    decreases n - i
  {
    if i >= n then [] else [(ATTACKER, AtkAt(i + 1))] + SamplingPlan(i + 1, n)
  }

  lemma {:induction false} SamplingLeads(i: nat, n: nat)
    requires i <= n <= 277
    ensures Leads(AtkAt(i), DefAt(0), SamplingPlan(i, n), AtkAt(n), DefAt(0))
    ensures forall m | m in SamplingPlan(i, n) :: m.0.ATTACKER?
    decreases n - i
  {
    Rows(i, 0);
    if i < n {
      SamplingLeads(i + 1, n);
      assert SamplingPlan(i, n)[1..] == SamplingPlan(i + 1, n);
    }
  }

  /** Both, until the defender has made 164 periods: in 30 ms the attacker makes three
      periods and the defender two. The attacker has made i, the defender k, and step
      is the place in these 30 ms. */
  ghost function ClimbPlan(i: nat, k: nat, step: nat): Plan
    decreases 164 - k, 3 - step
  {
    if k >= 164 then []
    else if step < 3 then [(ATTACKER, AtkAt(i + 1))] + ClimbPlan(i + 1, k, step + 1)
    else [(DEFENDER, DefAt(k + 1))] + ClimbPlan(i, k + 1, if step == 3 then 4 else 0)
  }

  /** The place in the 30 ms fits the periods made. */
  predicate InStep(i: nat, k: nat, step: nat) {
    if step < 3 then 2 * (i - 31 - step) == 3 * k else step <= 4 && 2 * (i - 34) == 3 * (k - (step - 3))
  }

  /** The attacker makes its 277th period before the defender makes its 164th. */
  lemma StepFits(i: nat, k: nat, step: nat)
    requires InStep(i, k, step) && k < 164
    ensures step < 3 ==> i < 277 && InStep(i + 1, k, step + 1)
    ensures step >= 3 ==> i <= 277 && InStep(i, k + 1, if step == 3 then 4 else 0)
    ensures step == 3 ==> k + 1 < 164
  {
  }

  lemma LeadsOn(a: Pos, d: Pos, m: (MissileType, Pos), rest: Plan, a': Pos, d': Pos)
    requires Apart(a, d)
    requires if m.0.ATTACKER? then Leads(m.1, d, rest, a', d') else Leads(a, m.1, rest, a', d')
    ensures Leads(a, d, [m] + rest, a', d')
  {
    assert ([m] + rest)[1..] == rest;
  }

  lemma {:induction false} ClimbLeads(i: nat, k: nat, step: nat)
    requires InStep(i, k, step) && k <= 164 && (k == 164 ==> step == 0)
    ensures Leads(AtkAt(i), DefAt(k), ClimbPlan(i, k, step), AtkAt(277), DefAt(164))
    decreases 164 - k, 3 - step
  {
    if k < 164 {
      StepFits(i, k, step);
      Rows(i, k);
      if step < 3 {
        ClimbLeads(i + 1, k, step + 1);
        LeadsOn(AtkAt(i), DefAt(k), (ATTACKER, AtkAt(i + 1)), ClimbPlan(i + 1, k, step + 1), AtkAt(277), DefAt(164));
      } else {
        var next := if step == 3 then 4 else 0;
        ClimbLeads(i, k + 1, next);
        LeadsOn(AtkAt(i), DefAt(k), (DEFENDER, DefAt(k + 1)), ClimbPlan(i, k + 1, next), AtkAt(277), DefAt(164));
      }
    } else {
      Rows(277, 164);
    }
  }

  /** The plan moves the defender. */
  lemma {:induction false} ClimbMovesDefender(i: nat, k: nat, step: nat)
    requires k < 164
    ensures exists m | m in ClimbPlan(i, k, step) :: m.0.DEFENDER?
    decreases 3 - step
  {
    var plan := ClimbPlan(i, k, step);
    if step < 3 {
      ClimbMovesDefender(i + 1, k, step + 1);
      var m :| m in ClimbPlan(i + 1, k, step + 1) && m.0.DEFENDER?;
      assert m in plan;
    } else {
      assert plan[0] in plan;
    }
  }

  lemma AimStep(w: World)
    requires Flying(w, AtkAt(31), DefAt(0), Ready)
    ensures Enabled(DEFAULT, w, Aim(0, START_COLUMN))
    ensures Flying(Next(DEFAULT, w, Aim(0, START_COLUMN)), AtkAt(31), DefAt(0), Loop(false))
  {
    Rows(31, 0);
    StepInv(DEFAULT, w, Aim(0, START_COLUMN));
  }

  /** The bisection finds this column: for the positions after 1 and 31 periods and the
      speed measured between them, within 0.2 of 30, the sign of the gap changes
      between START_COLUMN and the next one. */
  lemma StartColumnComputed(speed: real)
    requires 29.8 <= speed <= 30.2
    ensures var a, b := AtkAt(1), AtkAt(31); var m := LineM(a, b); var t := Trajectory(m, LineB(m, a), speed);
      && a == Pos(439, 8) && b == Pos(447, 12) && m == 0.5
      && Gap(DEFAULT, t, b, START_COLUMN as real) > 0.0 > Gap(DEFAULT, t, b, (START_COLUMN + 1) as real)
  {
    var r := speed / DEF_MISSILE_SPEED;
    assert 0.229 < r < 0.2325;
    assert (r * 332.0) * (r * 332.0) > 5780.0 by { SquareAbove(r * 332.0, 76.028); }
    assert (r * 331.5) * (r * 331.5) < 5951.25 by { SquareBelow(r * 331.5, 77.14); }
  }

  /** The trajectory that the defender computes from them. */
  function Sampled(speed: real): Trajectory {
    Trajectory(LineM(AtkAt(1), AtkAt(31)), LineB(LineM(AtkAt(1), AtkAt(31)), AtkAt(1)), speed)
  }

  /** What get_start_x_position returns for them is the start column. */
  method StartColumnReturned(speed: real) returns (column: int)
    requires 29.8 <= speed <= 30.2
    ensures column == START_COLUMN
  {
    SampledFacts(speed);
    ghost var x, i;
    column, x, i := GetStartXPosition(DEFAULT, AtkAt(1), AtkAt(31), speed);
    assert Accurate(Sampled(speed), AtkAt(31), x);
    StartColumnSqueezed(speed, x);
  }

  lemma SampledFacts(speed: real)
    requires 29.8 <= speed <= 30.2
    ensures AtkAt(1).x != AtkAt(31).x && 8 <= AtkAt(31).x <= 632 && Slow(Sampled(speed))
  {
    SlowerIsSlow(Sampled(speed));
  }

  /** The sign changes already between 515.01 and 515.99. */
  lemma StartColumnSqueezed(speed: real, x: real)
    requires 29.8 <= speed <= 30.2 && Accurate(Sampled(speed), AtkAt(31), x)
    ensures 515.0 < x < 516.0
  {
    assert AtkAt(1) == Pos(439, 8) && AtkAt(31) == Pos(447, 12) && LineM(AtkAt(1), AtkAt(31)) == 0.5;
    StartGaps(speed);
    ResultIsBetween(Sampled(speed), AtkAt(31), x, 515.01, 515.99);
  }

  lemma StartGaps(speed: real)
    requires 29.8 <= speed <= 30.2
    ensures var t := Trajectory(0.5, LineB(0.5, Pos(439, 8)), speed);
      Gap(DEFAULT, t, Pos(447, 12), 515.01) >= 0.0 >= Gap(DEFAULT, t, Pos(447, 12), 515.99)
  {
    var r := speed / DEF_MISSILE_SPEED;
    assert 0.2292 < r < 0.2324;
    var e, f := r * 331.995, r * 331.505;
    SquareAbove(e, 76.08);
    SquareBelow(f, 77.05);
  }

  lemma SquareAbove(x: real, b: real)
    requires 0.0 <= b <= x
    ensures x * x >= b * b
  {
    RealAlgebra.MulMono(b, x, b);
    RealAlgebra.MulMono(b, x, x);
  }

  lemma SquareBelow(x: real, b: real)
    requires 0.0 <= x <= b
    ensures x * x <= b * b
  {
    RealAlgebra.SquareBound(x, b);
  }

  /** The defender samples the attacker for 300 ms. */
  ghost function Sampling(): Run {
    FirstTarget() + PlanRun(SamplingPlan(1, 31))
  }

  /** It starts, and climbs 320 rows to the lowest row of the legend. */
  ghost function Climb(): Run {
    Sampling() + [Aim(0, START_COLUMN)] + PlanRun(ClimbPlan(31, 0, 0))
  }

  /** Then the launcher takes index 1. */
  ghost function OverLegend(): Run {
    Climb() + [Acquire(1)]
  }

  lemma SamplingRun(w0: World)
    requires Init(DEFAULT, w0)
    ensures Feasible(DEFAULT, w0, Sampling()) && Flying(Exec(DEFAULT, w0, Sampling()), AtkAt(31), DefAt(0), Ready)
  {
    FirstTargetRun(w0);
    var w := Exec(DEFAULT, w0, FirstTarget());
    SamplingLeads(1, 31);
    PlanFlies(w, AtkAt(1), DefAt(0), Ready, SamplingPlan(1, 31), AtkAt(31), DefAt(0));
    RunAppend(DEFAULT, w0, FirstTarget(), PlanRun(SamplingPlan(1, 31)));
  }

  lemma ClimbFlies(w: World)
    requires Flying(w, AtkAt(31), DefAt(0), Loop(false))
    ensures Feasible(DEFAULT, w, PlanRun(ClimbPlan(31, 0, 0)))
    ensures Flying(Exec(DEFAULT, w, PlanRun(ClimbPlan(31, 0, 0))), AtkAt(277), DefAt(164), Loop(true))
  {
    ClimbLeads(31, 0, 0);
    ClimbMovesDefender(31, 0, 0);
    PlanFlies(w, AtkAt(31), DefAt(0), Loop(false), ClimbPlan(31, 0, 0), AtkAt(277), DefAt(164));
  }

  lemma ClimbRun(w0: World)
    requires Init(DEFAULT, w0)
    ensures Feasible(DEFAULT, w0, Climb()) && Flying(Exec(DEFAULT, w0, Climb()), AtkAt(277), DefAt(164), Loop(true))
  {
    InitInv(DEFAULT, w0);
    SamplingRun(w0);
    AimStep(Exec(DEFAULT, w0, Sampling()));
    RunExtends(DEFAULT, w0, Sampling(), Aim(0, START_COLUMN));
    var r := Sampling() + [Aim(0, START_COLUMN)];
    ClimbFlies(Exec(DEFAULT, w0, r));
    RunAppend(DEFAULT, w0, r, PlanRun(ClimbPlan(31, 0, 0)));
  }

  lemma OverLegendRun(w0: World)
    requires Init(DEFAULT, w0)
    ensures Feasible(DEFAULT, w0, OverLegend()) && AboveLegend(Exec(DEFAULT, w0, OverLegend()))
  {
    InitInv(DEFAULT, w0);
    ClimbRun(w0);
    AcquireStep(Exec(DEFAULT, w0, Climb()), FlightGrid(AtkAt(277), DefAt(164), true), Attacker(AtkAt(277), 0),
                NewDefender(0).(pos := DefAt(164)), Loop(true), 1);
    RunExtends(DEFAULT, w0, Climb(), Acquire(1));
  }

  // ----- the second search -----

  ghost predicate AboveLegend(w: World) {
    At(w, FlightGrid(AtkAt(277), DefAt(164), true), Attacker(AtkAt(277), 0),
       NewDefender(0).(pos := DefAt(164)), Loop(true), Holding(1))
  }

  ghost function SecondSearch(): Event {
    Search(RedPixels(AtkAt(277)), Some(DefAt(164)))
  }

  /** The cache is right before the second search, and the screen misleads it: the
      attacker is tracked, and the legend is red where the defender is. */
  lemma LegendMisleads(w: World)
    requires AboveLegend(w)
    ensures CacheOk(DEFAULT, w) && Misleads(w.mem, RedPixels(AtkAt(277))) && Enabled(DEFAULT, w, SecondSearch())
  {
    var red, d := RedPixels(AtkAt(277)), DefAt(164);
    assert AtkAt(277) == Pos(510, 50) && d == Pos(515, 58);
    forall q | q in w.mem.cell ensures CellTargetOk(w.mem, q) { }
    assert Tracked(w.mem, 0);
    assert Candidate(w.mem, red, d);
    assert SearchFinds(w.mem, red, Some(d));
  }

  /** The search has labelled the defender's cell and the attacker's record. */
  ghost predicate Broken(w: World) {
    && Typed(DEFAULT, w) && !CacheOk(DEFAULT, w)
    && w.mem.atk[0].target == 1
    && DefAt(164) in w.mem.cell && w.mem.cell[DefAt(164)] == Cell(DEF_MISSILE, 0, 1)
  }

  lemma SecondSearchBreaks(w: World)
    requires AboveLegend(w) && CacheOk(DEFAULT, w)
    requires Misleads(w.mem, RedPixels(AtkAt(277))) && Enabled(DEFAULT, w, SecondSearch())
    ensures Broken(Next(DEFAULT, w, SecondSearch()))
  {
    SearchBreaksCacheIff(DEFAULT, w, RedPixels(AtkAt(277)), Some(DefAt(164)));
  }

  /** The cache can break with the program's own sizes, speeds and screen: the second
      search of this run takes the defender over the legend for a new attacker, and
      assigns attacker 0, which defender 0 pursues, to defender 1. */
  lemma CacheCanBreak(w0: World)
    requires Init(DEFAULT, w0)
    ensures Feasible(DEFAULT, w0, OverLegend()) && CacheOk(DEFAULT, Exec(DEFAULT, w0, OverLegend()))
    ensures var run := OverLegend() + [SecondSearch()];
      Feasible(DEFAULT, w0, run) && Broken(Exec(DEFAULT, w0, run))
  {
    InitInv(DEFAULT, w0);
    OverLegendRun(w0);
    var w := Exec(DEFAULT, w0, OverLegend());
    LegendMisleads(w);
    SecondSearchBreaks(w);
    RunExtends(DEFAULT, w0, OverLegend(), SecondSearch());
  }
}
