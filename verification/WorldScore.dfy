/** Runs of the simulation: no ghost cells, and conservation of the score. */
module WorldScore {
  import opened Options
  import opened Counting
  import opened Missiles
  import opened World

  type Run = seq<Event>

  /** Every event of the run can happen, one after the other. */
  ghost predicate Feasible(p: Params, w: World, run: Run)
    decreases |run|
  {
    Typed(p, w) &&
    (run != [] ==>
       && Enabled(p, w, run[0])
       && Feasible(p, Next(p, w, run[0]), run[1..]))
  }

  ghost function Exec(p: Params, w: World, run: Run): (w': World)
    requires Feasible(p, w, run)
    ensures Typed(p, w')
    decreases |run|
  {
    if run == [] then w else Exec(p, Next(p, w, run[0]), run[1..])
  }

  lemma {:induction false} RunInv(p: Params, w: World, run: Run)
    requires Sound(p) && Inv(p, w) && Feasible(p, w, run)
    ensures Inv(p, Exec(p, w, run))
    decreases |run|
  {
    if run != [] {
      StepInv(p, w, run[0]);
      RunInv(p, Next(p, w, run[0]), run[1..]);
    }
  }

  /** An event that can happen at the end of a run extends it: that every state of a
      run has the declared sizes is no further demand. */
  lemma {:induction false} RunExtends(p: Params, w: World, run: Run, e: Event)
    requires Sound(p) && Inv(p, w) && Feasible(p, w, run) && Enabled(p, Exec(p, w, run), e)
    ensures Feasible(p, w, run + [e])
    ensures Exec(p, w, run + [e]) == Next(p, Exec(p, w, run), e)
    decreases |run|
  {
    var r := run + [e];
    StepInv(p, w, r[0]);
    var w' := Next(p, w, r[0]);
    if run == [] {
      assert r == [e] && r[1..] == [];
      assert Feasible(p, w', []) && Exec(p, w', []) == w';
    } else {
      assert r[1..] == run[1..] + [e];
      RunExtends(p, w', run[1..], e);
    }
  }

  /** No ghost cells, whatever the interleaving and wherever the spawns: a missile
      cell always belongs to a live undeleted missile that was last placed there,
      and no missile has two cells. */
  lemma NoGhostCells(p: Params, w0: World, run: Run)
    requires Sound(p) && Init(p, w0) && Feasible(p, w0, run)
    ensures var w := Exec(p, w0, run);
      && (forall q | q in w.mem.cell && IsMissileType(w.mem.cell[q].ctype) ::
            Owns(w, TypeOfCell(w.mem.cell[q].ctype), w.mem.cell[q].value, q))
      && (forall q, q' | q in w.mem.cell && q' in w.mem.cell && IsMissileType(w.mem.cell[q].ctype)
            && w.mem.cell[q].ctype == w.mem.cell[q'].ctype && w.mem.cell[q].value == w.mem.cell[q'].value :: q == q')
  {
    InitInv(p, w0);
    RunInv(p, w0, run);
  }

  /** No ABA: whenever an update deletes a missile, that missile is still in its
      movement loop, undeleted, placed at the very cell, and under the index that
      the cell names. */
  lemma DeletesHitLiveMissiles(p: Params, w0: World, run: Run, k: MissileType, i: nat, h: Pos)
    requires Sound(p) && Init(p, w0) && Feasible(p, w0, run)
    requires Enabled(p, Exec(p, w0, run), Update(k, i, Some(h)))
    requires IsMissileType(Exec(p, w0, run).mem.cell[h].ctype)
    ensures var w := Exec(p, w0, run);
      var v := w.mem.cell[h].value; var kk := TypeOfCell(w.mem.cell[h].ctype);
      && 0 <= v < p.n && Owns(w, kk, v, h) && w.mem.Queue(kk)[v].index == v && (kk, v) != (k, i)
      && Next(p, w, Update(k, i, Some(h))).mem.Queue(kk)[v].deleted
  {
    InitInv(p, w0);
    RunInv(p, w0, run);
    var w := Exec(p, w0, run);
    VictimIsLive(p, w, k, i, h);
    UpdatedRecord(p, w, k, i, Some(h), TypeOfCell(w.mem.cell[h].ctype), w.mem.cell[h].value);
  }

  // ----- score conservation -----

  /** The missile is launched and has not met its end. */
  predicate Unspent(r: Missile, ph: Phase) {
    (ph.Ready? || Active(ph)) && !r.deleted
  }

  ghost function UnspentBits(w: World, k: MissileType, n: nat): seq<bool>
    requires |w.mem.Queue(k)| == n && |w.Phases(k)| == n
  {
    seq(n, i requires 0 <= i < n => Unspent(w.mem.Queue(k)[i], w.Phases(k)[i]))
  }

  ghost function Itself(): bool -> bool {
    b => b
  }

  /** How many missiles of a type are launched and have not met their end. */
  ghost function UnspentCount(p: Params, w: World, k: MissileType): nat
    requires Typed(p, w)
  {
    Count(UnspentBits(w, k, p.n), Itself())
  }

  ghost function Launched(w: World, k: MissileType): nat {
    if k.ATTACKER? then w.atkLaunched else w.defLaunched
  }

  ghost function Lost(w: World, k: MissileType): nat {
    if k.ATTACKER? then w.atkLost else w.defLost
  }

  /** The points that used up a missile of type k: every point uses up an
      attacker, and a defender point also a defender. */
  ghost function Points(w: World, k: MissileType): int {
    if k.ATTACKER? then w.mem.atkPoints + w.mem.defPoints else w.mem.defPoints
  }

  /** Every launched missile is unspent, or was used up by exactly one point, or
      was lost without one. */
  ghost predicate Conserved(p: Params, w: World, k: MissileType)
    requires Typed(p, w)
  {
    Launched(w, k) == UnspentCount(p, w, k) + Points(w, k) + Lost(w, k)
  }

  /** One record changes: the count moves by that record alone. */
  lemma CountOne(p: Params, w: World, w': World, k: MissileType, i: nat)
    requires Typed(p, w) && Typed(p, w') && i < p.n
    requires forall j | 0 <= j < p.n && j != i ::
      Unspent(w'.mem.Queue(k)[j], w'.Phases(k)[j]) == Unspent(w.mem.Queue(k)[j], w.Phases(k)[j])
    ensures UnspentCount(p, w', k) + (if Unspent(w.mem.Queue(k)[i], w.Phases(k)[i]) then 1 else 0)
         == UnspentCount(p, w, k) + (if Unspent(w'.mem.Queue(k)[i], w'.Phases(k)[i]) then 1 else 0)
  {
    var bits := UnspentBits(w, k, p.n);
    var bits' := UnspentBits(w', k, p.n);
    assert bits' == bits[i := bits'[i]];
    CountUpdate(bits, i, bits'[i], Itself());
  }

  /** Two records change. */
  lemma CountTwo(p: Params, w: World, w': World, k: MissileType, i: nat, j: nat)
    requires Typed(p, w) && Typed(p, w') && i < p.n && j < p.n && i != j
    requires forall l | 0 <= l < p.n && l != i && l != j ::
      Unspent(w'.mem.Queue(k)[l], w'.Phases(k)[l]) == Unspent(w.mem.Queue(k)[l], w.Phases(k)[l])
    ensures UnspentCount(p, w', k)
              + (if Unspent(w.mem.Queue(k)[i], w.Phases(k)[i]) then 1 else 0)
              + (if Unspent(w.mem.Queue(k)[j], w.Phases(k)[j]) then 1 else 0)
         == UnspentCount(p, w, k)
              + (if Unspent(w'.mem.Queue(k)[i], w'.Phases(k)[i]) then 1 else 0)
              + (if Unspent(w'.mem.Queue(k)[j], w'.Phases(k)[j]) then 1 else 0)
  {
    var bits := UnspentBits(w, k, p.n);
    var bits' := UnspentBits(w', k, p.n);
    var mid := bits[i := bits'[i]];
    assert bits' == mid[j := bits'[j]];
    CountUpdate(bits, i, bits'[i], Itself());
    CountUpdate(mid, j, bits'[j], Itself());
  }

  lemma InitConserved(p: Params, w: World, k: MissileType)
    requires Sound(p) && Init(p, w)
    ensures Conserved(p, w, k)
  {
    CountZero(UnspentBits(w, k, p.n), Itself());
  }

  /** Whether an update ends the mover, and whether it deletes a missile of type kk. */
  predicate Deletes(w: World, hit: Option<Pos>, kk: MissileType)
    requires hit.Some? ==> hit.value in w.mem.cell
  {
    hit.Some? && w.mem.cell[hit.value].ctype == CellTypeOf(kk)
  }

  /** The score and the losses of an update, by what it meets. */
  lemma UpdateScores(p: Params, w: World, k: MissileType, i: nat, hit: Option<Pos>, kk: MissileType)
    requires Inv(p, w) && Enabled(p, w, Update(k, i, hit))
    ensures var w' := Next(p, w, Update(k, i, hit));
      Points(w', kk) + Lost(w', kk) == Points(w, kk) + Lost(w, kk)
        + (if kk == k && Unspent(w.mem.Queue(k)[i], w.Phases(k)[i]) && UpdateCollides(p, w.mem, k, i, hit)
           then 1 else 0)
        + (if Deletes(w, hit, kk) then 1 else 0)
  {
    assert SlotOk(p, k, i, w.mem.Queue(k)[i], w.Phases(k)[i]);
    MoverOwnsNothing(p, w, k, i, hit);
    if hit.Some? && IsMissileType(w.mem.cell[hit.value].ctype) { VictimIsLive(p, w, k, i, hit.value); }
  }

  /** The missile (kk, j) meets its end in the update. */
  predicate Ends(p: Params, w: World, k: MissileType, i: nat, hit: Option<Pos>, kk: MissileType, j: int)
    requires hit.Some? ==> hit.value in w.mem.cell
    requires i < |w.mem.Queue(k)|
  {
    ((kk, j) == (k, i) && UpdateCollides(p, w.mem, k, i, hit)) || IsVictim(w, k, i, hit, kk, j)
  }

  /** An update ends the life of the missiles that meet their end, and of no other. */
  lemma UpdateEnds(p: Params, w: World, k: MissileType, i: nat, hit: Option<Pos>, kk: MissileType, j: nat)
    requires Inv(p, w) && Enabled(p, w, Update(k, i, hit)) && j < p.n
    ensures var w' := Next(p, w, Update(k, i, hit));
      && |w'.mem.Queue(kk)| == p.n && |w'.Phases(kk)| == p.n
      && (Unspent(w'.mem.Queue(kk)[j], w'.Phases(kk)[j]) <==>
            Unspent(w.mem.Queue(kk)[j], w.Phases(kk)[j]) && !Ends(p, w, k, i, hit, kk, j))
  {
    UpdatedRecord(p, w, k, i, hit, kk, j);
    UpdatedPhase(p, w, k, i, hit, kk, j);
    if IsVictim(w, k, i, hit, kk, j) { VictimIsLive(p, w, k, i, hit.value); }
  }

  /** An update that deletes a missile of type kk uses up that missile, and the mover. */
  lemma UpdateSpendsVictim(p: Params, w: World, k: MissileType, i: nat, h: Pos, kk: MissileType)
    requires Inv(p, w) && Enabled(p, w, Update(k, i, Some(h))) && Deletes(w, Some(h), kk)
    requires Typed(p, Next(p, w, Update(k, i, Some(h))))
    ensures UnspentCount(p, w, kk) == UnspentCount(p, Next(p, w, Update(k, i, Some(h))), kk)
        + (if kk == k && Unspent(w.mem.Queue(k)[i], w.Phases(k)[i]) then 1 else 0) + 1
  {
    var w' := Next(p, w, Update(k, i, Some(h)));
    VictimIsLive(p, w, k, i, h);
    var v := w.mem.cell[h].value;
    forall j | 0 <= j < p.n && j != v && (kk, j) != (k, i)
      ensures Unspent(w'.mem.Queue(kk)[j], w'.Phases(kk)[j]) == Unspent(w.mem.Queue(kk)[j], w.Phases(kk)[j])
    {
      UpdateEnds(p, w, k, i, Some(h), kk, j);
    }
    UpdateEnds(p, w, k, i, Some(h), kk, v);
    if kk == k {
      UpdateEnds(p, w, k, i, Some(h), k, i);
      CountTwo(p, w, w', kk, i, v);
    } else {
      CountOne(p, w, w', kk, v);
    }
  }

  /** An update that deletes no missile of type kk uses up at most the mover. */
  lemma UpdateSpendsMover(p: Params, w: World, k: MissileType, i: nat, hit: Option<Pos>, kk: MissileType)
    requires Inv(p, w) && Enabled(p, w, Update(k, i, hit)) && !Deletes(w, hit, kk)
    requires Typed(p, Next(p, w, Update(k, i, hit)))
    ensures UnspentCount(p, w, kk) == UnspentCount(p, Next(p, w, Update(k, i, hit)), kk)
        + (if kk == k && Unspent(w.mem.Queue(k)[i], w.Phases(k)[i]) && UpdateCollides(p, w.mem, k, i, hit)
           then 1 else 0)
  {
    var w' := Next(p, w, Update(k, i, hit));
    forall j | 0 <= j < p.n && j != i
      ensures Unspent(w'.mem.Queue(kk)[j], w'.Phases(kk)[j]) == Unspent(w.mem.Queue(kk)[j], w.Phases(kk)[j])
    {
      UpdateEnds(p, w, k, i, hit, kk, j);
    }
    UpdateEnds(p, w, k, i, hit, kk, i);
    CountOne(p, w, w', kk, i);
  }

  lemma UpdateConserves(p: Params, w: World, k: MissileType, i: nat, hit: Option<Pos>, kk: MissileType)
    requires Sound(p) && Inv(p, w) && Conserved(p, w, kk) && Enabled(p, w, Update(k, i, hit))
    requires Typed(p, Next(p, w, Update(k, i, hit)))
    ensures Conserved(p, Next(p, w, Update(k, i, hit)), kk)
  {
    UpdateScores(p, w, k, i, hit, kk);
    if Deletes(w, hit, kk) {
      UpdateSpendsVictim(p, w, k, i, hit.value, kk);
    } else {
      UpdateSpendsMover(p, w, k, i, hit, kk);
    }
  }

  /** The record that an event other than an update touches. */
  function Touched(w: World, e: Event): nat {
    match e
    case LaunchAtk(i, _) => i
    case LaunchDef => if w.launcher.Found? then w.launcher.t else 0
    case Aim(i, _) => i
    case Move(_, i, _) => i
    case Clear(_, i) => i
    case _ => 0
  }

  /** The type of the missile that an event launches, if any. */
  predicate Launches(e: Event, k: MissileType) {
    if k.ATTACKER? then e.LaunchAtk? else e.LaunchDef?
  }

  lemma SearchUnspent(p: Params, w: World, e: Event, kk: MissileType, j: nat)
    requires Inv(p, w) && Enabled(p, w, e) && e.Search? && j < p.n
    ensures var w' := Next(p, w, e);
      && |w'.mem.Queue(kk)| == p.n && |w'.Phases(kk)| == p.n
      && Unspent(w'.mem.Queue(kk)[j], w'.Phases(kk)[j]) == Unspent(w.mem.Queue(kk)[j], w.Phases(kk)[j])
  {
  }

  lemma RecordStepUnspent(p: Params, w: World, e: Event, kk: MissileType, j: nat)
    requires Inv(p, w) && Enabled(p, w, e) && !e.Update? && j < p.n
    ensures var w' := Next(p, w, e);
      && |w'.mem.Queue(kk)| == p.n && |w'.Phases(kk)| == p.n
      && (Unspent(w'.mem.Queue(kk)[j], w'.Phases(kk)[j]) <==>
            Unspent(w.mem.Queue(kk)[j], w.Phases(kk)[j]) || (Launches(e, kk) && j == Touched(w, e)))
  {
    if e.Search? {
      SearchUnspent(p, w, e, kk, j);
    } else {
      assert SlotOk(p, kk, j, w.mem.Queue(kk)[j], w.Phases(kk)[j]);
    }
  }

  /** A launch adds one live missile; no other record event changes the number. */
  lemma RecordStepConserves(p: Params, w: World, e: Event, kk: MissileType)
    requires Sound(p) && Inv(p, w) && Conserved(p, w, kk) && Enabled(p, w, e) && !e.Update?
    requires Typed(p, Next(p, w, e))
    ensures Conserved(p, Next(p, w, e), kk)
  {
    var w' := Next(p, w, e);
    forall j | 0 <= j < p.n
      ensures Unspent(w'.mem.Queue(kk)[j], w'.Phases(kk)[j]) <==>
        Unspent(w.mem.Queue(kk)[j], w.Phases(kk)[j]) || (Launches(e, kk) && j == Touched(w, e))
    {
      RecordStepUnspent(p, w, e, kk, j);
    }
    CountOne(p, w, w', kk, Touched(w, e));
  }

  lemma StepConserves(p: Params, w: World, e: Event, kk: MissileType)
    requires Sound(p) && Inv(p, w) && Conserved(p, w, kk) && Enabled(p, w, e)
    ensures Typed(p, Next(p, w, e)) && Conserved(p, Next(p, w, e), kk)
  {
    StepInv(p, w, e);
    match e
    case Update(k, i, hit) => UpdateConserves(p, w, k, i, hit, kk);
    case _ => RecordStepConserves(p, w, e, kk);
  }

  lemma {:induction false} RunConserves(p: Params, w: World, run: Run, k: MissileType)
    requires Sound(p) && Inv(p, w) && Conserved(p, w, k) && Feasible(p, w, run)
    ensures Inv(p, Exec(p, w, run)) && Conserved(p, Exec(p, w, run), k)
    decreases |run|
  {
    if run != [] {
      StepInv(p, w, run[0]);
      StepConserves(p, w, run[0], k);
      RunConserves(p, Next(p, w, run[0]), run[1..], k);
    }
  }

  /** Score conservation: over every run, every attacker launched is alive, or was
      used up by exactly one point, or was lost; every defender launched is alive,
      or was used up by exactly one defender point, or was lost. */
  lemma ScoreConservation(p: Params, w0: World, run: Run)
    requires Sound(p) && Init(p, w0) && Feasible(p, w0, run)
    ensures var w := Exec(p, w0, run);
      && Typed(p, w)
      && w.atkLaunched == UnspentCount(p, w, ATTACKER) + w.mem.atkPoints + w.mem.defPoints + w.atkLost
      && w.defLaunched == UnspentCount(p, w, DEFENDER) + w.mem.defPoints + w.defLost
  {
    InitInv(p, w0);
    InitConserved(p, w0, ATTACKER);
    InitConserved(p, w0, DEFENDER);
    RunConserves(p, w0, run, ATTACKER);
    RunConserves(p, w0, run, DEFENDER);
  }

  /** Hence the score is bounded by the launches. */
  lemma ScoreBound(p: Params, w0: World, run: Run)
    requires Sound(p) && Init(p, w0) && Feasible(p, w0, run)
    ensures var w := Exec(p, w0, run);
      && w.mem.atkPoints + w.mem.defPoints <= w.atkLaunched
      && w.mem.defPoints <= w.defLaunched
  {
    ScoreConservation(p, w0, run);
  }

  /** When a point is given, and to whom: a defender point exactly when missiles of
      different types meet, and an attacker point exactly when an attacker meets
      the goal. */
  lemma PointMeaning(p: Params, w: World, k: MissileType, i: nat, hit: Option<Pos>)
    requires Inv(p, w) && Enabled(p, w, Update(k, i, hit))
    ensures var m := w.mem; var w' := Next(p, w, Update(k, i, hit)); var m' := w'.mem;
      && (m'.defPoints == m.defPoints + 1 <==>
            hit.Some? && IsMissileType(m.cell[hit.value].ctype) && TypeOfCell(m.cell[hit.value].ctype) != k)
      && (m'.atkPoints == m.atkPoints + 1 <==> hit.Some? && k.ATTACKER? && m.cell[hit.value].ctype == GOAL)
      && m.defPoints <= m'.defPoints && m.atkPoints <= m'.atkPoints
      && m'.defPoints + m'.atkPoints <= m.defPoints + m.atkPoints + 1
  {
    assert SlotOk(p, k, i, w.mem.Queue(k)[i], w.Phases(k)[i]);
    MoverOwnsNothing(p, w, k, i, hit);
    if hit.Some? && IsMissileType(w.mem.cell[hit.value].ctype) { VictimIsLive(p, w, k, i, hit.value); }
  }

  /** Missile (k, i) is unspent before the event and spent after it. */
  ghost predicate UsedUp(p: Params, w: World, e: Event, k: MissileType, i: nat)
    requires Typed(p, w) && Enabled(p, w, e) && Typed(p, Next(p, w, e)) && i < p.n
  {
    && Unspent(w.mem.Queue(k)[i], w.Phases(k)[i])
    && !Unspent(Next(p, w, e).mem.Queue(k)[i], Next(p, w, e).Phases(k)[i])
  }

  /** A point uses up fresh missiles: an attacker point the attacker, a defender
      point both the mover and the missile it meets. */
  lemma PointsUseUpMissiles(p: Params, w: World, k: MissileType, i: nat, h: Pos)
    requires Sound(p) && Inv(p, w) && Enabled(p, w, Update(k, i, Some(h)))
    ensures Typed(p, Next(p, w, Update(k, i, Some(h))))
    ensures var e := Update(k, i, Some(h)); var m, m' := w.mem, Next(p, w, e).mem;
      && (m'.atkPoints > m.atkPoints ==> k.ATTACKER? && UsedUp(p, w, e, ATTACKER, i))
      && (m'.defPoints > m.defPoints ==>
            var v := m.cell[h].value; var kk := TypeOfCell(m.cell[h].ctype);
            kk != k && 0 <= v < p.n && UsedUp(p, w, e, k, i) && UsedUp(p, w, e, kk, v))
  {
    var e := Update(k, i, Some(h));
    StepInv(p, w, e);
    PointMeaning(p, w, k, i, Some(h));
    UpdateEnds(p, w, k, i, Some(h), k, i);
    if IsMissileType(w.mem.cell[h].ctype) {
      VictimIsLive(p, w, k, i, h);
      UpdateEnds(p, w, k, i, Some(h), TypeOfCell(w.mem.cell[h].ctype), w.mem.cell[h].value);
    }
  }
}
