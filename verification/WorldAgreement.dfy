/** When the grid and the missile records determine each other. */
module WorldAgreement {
  import opened Options
  import opened Missiles
  import opened World
  import opened WorldScore
  import opened WorldLayout

  /** The missile (k, i) has its cell. */
  predicate HasCell(w: World, k: MissileType, i: nat)
    requires i < |w.mem.Queue(k)| && i < |w.Phases(k)|
  {
    var q := Committed(w.mem.Queue(k)[i], w.Phases(k)[i]);
    Owns(w, k, i, q) ==> q in w.mem.cell && w.mem.cell[q].ctype == CellTypeOf(k) && w.mem.cell[q].value == i
  }

  /** The converse of NoGhosts: every live, undeleted, placed missile has its cell. */
  ghost predicate AllHaveCells(p: Params, w: World)
    requires Typed(p, w)
  {
    forall k: MissileType, i | 0 <= i < p.n :: HasCell(w, k, i)
  }

  /** The event is the first update of a missile whose spawn cell holds a missile. */
  predicate ErasesNeighbour(w: World, e: Event) {
    && e.Update? && e.i < |w.Phases(e.k)| && w.Phases(e.k)[e.i].Moved?
    && !w.Phases(e.k)[e.i].placed
    && w.Phases(e.k)[e.i].from in w.mem.cell && IsMissileType(w.mem.cell[w.Phases(e.k)[e.i].from].ctype)
  }

  /** A missile is placed on no other missile's cell. */
  lemma PlacedOnFreeCell(p: Params, w: World, k: MissileType, i: nat)
    requires Sound(p) && Inv(p, w) && Enabled(p, w, Update(k, i, None)) && !UpdateCollides(p, w.mem, k, i, None)
    ensures var q := w.mem.Queue(k)[i].pos;
      && q in w.mem.cell
      && (q != w.Phases(k)[i].from ==> !IsMissileType(w.mem.cell[q].ctype))
  {
    var r := w.mem.Queue(k)[i];
    var cell := Erase(w.mem, w.Phases(k)[i].from).cell;
    assert SlotOk(p, k, i, r, w.Phases(k)[i]);
    MoverOwnsNothing(p, w, k, i, None);
    assert r.pos in cell && InBox(BoxAround(p, r.pos), r.pos);
    assert !Offends(cell[r.pos], k, i);
  }

  /** A missile other than the mover keeps its cell, unless the mover erases it
      as its own spawn cell. */
  lemma OthersKeepCells(p: Params, w: World, k: MissileType, i: nat, hit: Option<Pos>, kk: MissileType, j: nat)
    requires Sound(p) && Inv(p, w) && AllHaveCells(p, w) && Enabled(p, w, Update(k, i, hit)) && j < p.n
    requires !ErasesNeighbour(w, Update(k, i, hit)) && (kk, j) != (k, i)
    ensures var w' := Next(p, w, Update(k, i, hit));
      j < |w'.mem.Queue(kk)| && j < |w'.Phases(kk)| && HasCell(w', kk, j)
  {
    assert HasCell(w, kk, j) && HasCell(w, k, i);
    assert SlotOk(p, k, i, w.mem.Queue(k)[i], w.Phases(k)[i]);
    var w' := Next(p, w, Update(k, i, hit));
    UpdatedRecord(p, w, k, i, hit, kk, j);
    UpdatedPhase(p, w, k, i, hit, kk, j);
    var q := Committed(w.mem.Queue(kk)[j], w.Phases(kk)[j]);
    if Owns(w', kk, j, q) {
      assert Owns(w, kk, j, q) && !IsVictim(w, k, i, hit, kk, j);
      UpdatedCell(p, w, k, i, hit, q);
      var r := w.mem.Queue(k)[i];
      var from := w.Phases(k)[i].from;
      if !r.deleted && q == from {
        assert w.Phases(k)[i].placed;
        assert Owns(w, k, i, from);
      } else if !UpdateCollides(p, w.mem, k, i, hit) {
        PlacedOnFreeCell(p, w, k, i);
      }
    }
  }

  lemma MoverGetsCell(p: Params, w: World, k: MissileType, i: nat, hit: Option<Pos>)
    requires Inv(p, w) && Enabled(p, w, Update(k, i, hit))
    ensures var w' := Next(p, w, Update(k, i, hit));
      i < |w'.mem.Queue(k)| && i < |w'.Phases(k)| && HasCell(w', k, i)
  {
    assert SlotOk(p, k, i, w.mem.Queue(k)[i], w.Phases(k)[i]);
    UpdatedRecord(p, w, k, i, hit, k, i);
    UpdatedPhase(p, w, k, i, hit, k, i);
    if !UpdateCollides(p, w.mem, k, i, hit) {
      UpdatedCell(p, w, k, i, hit, w.mem.Queue(k)[i].pos);
    }
  }

  /** Exactly when an update breaks the agreement: on the first update of a
      missile whose spawn cell holds another missile, which then loses its cell. */
  lemma AgreementDamageIff(p: Params, w: World, k: MissileType, i: nat, hit: Option<Pos>)
    requires Sound(p) && Inv(p, w) && AllHaveCells(p, w) && Enabled(p, w, Update(k, i, hit))
    ensures Typed(p, Next(p, w, Update(k, i, hit)))
    ensures AllHaveCells(p, Next(p, w, Update(k, i, hit))) <==> !ErasesNeighbour(w, Update(k, i, hit))
  {
    var w' := Next(p, w, Update(k, i, hit));
    StepInv(p, w, Update(k, i, hit));
    if ErasesNeighbour(w, Update(k, i, hit)) {
      NeighbourLosesCell(p, w, k, i, hit);
    } else {
      forall kk: MissileType, j | 0 <= j < p.n ensures HasCell(w', kk, j) {
        if (kk, j) == (k, i) { MoverGetsCell(p, w, k, i, hit); } else { OthersKeepCells(p, w, k, i, hit, kk, j); }
      }
    }
  }

  /** The missile on whose cell another one spawned stays alive without a cell. */
  lemma NeighbourLosesCell(p: Params, w: World, k: MissileType, i: nat, hit: Option<Pos>)
    requires Inv(p, w) && Enabled(p, w, Update(k, i, hit)) && ErasesNeighbour(w, Update(k, i, hit))
    ensures var w' := Next(p, w, Update(k, i, hit));
      var c := w.mem.cell[w.Phases(k)[i].from]; var kk := TypeOfCell(c.ctype);
      0 <= c.value < |w'.mem.Queue(kk)| && c.value < |w'.Phases(kk)| && !HasCell(w', kk, c.value)
  {
    var from := w.Phases(k)[i].from;
    var c := w.mem.cell[from];
    var kk := TypeOfCell(c.ctype);
    assert SlotOk(p, k, i, w.mem.Queue(k)[i], w.Phases(k)[i]);
    assert Owns(w, kk, c.value, from);
    UpdatedRecord(p, w, k, i, hit, kk, c.value);
    UpdatedPhase(p, w, k, i, hit, kk, c.value);
    UpdatedCell(p, w, k, i, hit, from);
    if IsVictim(w, k, i, hit, kk, c.value) { VictimIsLive(p, w, k, i, hit.value); }
  }

  /** A search moves no missile and no cell. */
  lemma SearchKeepsCells(p: Params, w: World, e: Event, kk: MissileType, j: nat)
    requires Inv(p, w) && j < p.n && HasCell(w, kk, j) && Enabled(p, w, e) && e.Search?
    ensures var w' := Next(p, w, e);
      j < |w'.mem.Queue(kk)| && j < |w'.Phases(kk)| && HasCell(w', kk, j)
  {
  }

  /** The record that an event other than an update writes. */
  predicate Writes(w: World, e: Event, kk: MissileType, j: nat) {
    match e
    case LaunchAtk(i, _) => kk.ATTACKER? && j == i
    case LaunchDef => kk.DEFENDER? && w.launcher.Found? && j == w.launcher.t
    case Aim(i, _) => kk.DEFENDER? && j == i
    case Move(k, i, _) => kk == k && j == i
    case Clear(k, i) => kk == k && j == i
    case _ => false
  }

  /** Record events leave the grid and the other records alone. */
  lemma RecordFrame(p: Params, w: World, e: Event, kk: MissileType, j: nat)
    requires Inv(p, w) && Enabled(p, w, e) && !e.Update? && !e.Search? && j < p.n
    ensures var w' := Next(p, w, e);
      && |w'.mem.Queue(kk)| == p.n && |w'.Phases(kk)| == p.n
      && w'.mem.cell == w.mem.cell
      && (!Writes(w, e, kk, j) ==> w'.mem.Queue(kk)[j] == w.mem.Queue(kk)[j] && w'.Phases(kk)[j] == w.Phases(kk)[j])
  {
  }

  /** The missile an event writes is not placed by it, or keeps its committed position. */
  lemma RecordStepOwner(p: Params, w: World, e: Event, kk: MissileType, j: nat)
    requires Inv(p, w) && Enabled(p, w, e) && !e.Update? && !e.Search? && j < p.n && Writes(w, e, kk, j)
    ensures var w' := Next(p, w, e); var q := Committed(w'.mem.Queue(kk)[j], w'.Phases(kk)[j]);
      Owns(w', kk, j, q) ==> Owns(w, kk, j, q)
  {
    assert SlotOk(p, kk, j, w.mem.Queue(kk)[j], w.Phases(kk)[j]);
    RecordFrame(p, w, e, kk, j);
  }

  lemma RecordStepKeepsCells(p: Params, w: World, e: Event, kk: MissileType, j: nat)
    requires Inv(p, w) && j < p.n && HasCell(w, kk, j) && Enabled(p, w, e) && !e.Update? && !e.Search?
    ensures var w' := Next(p, w, e);
      j < |w'.mem.Queue(kk)| && j < |w'.Phases(kk)| && HasCell(w', kk, j)
  {
    RecordFrame(p, w, e, kk, j);
    if Writes(w, e, kk, j) { RecordStepOwner(p, w, e, kk, j); }
  }

  lemma StepKeepsCells(p: Params, w: World, e: Event)
    requires Sound(p) && Inv(p, w) && AllHaveCells(p, w) && Enabled(p, w, e) && !ErasesNeighbour(w, e)
    ensures Inv(p, Next(p, w, e)) && AllHaveCells(p, Next(p, w, e))
  {
    StepInv(p, w, e);
    if e.Update? {
      AgreementDamageIff(p, w, e.k, e.i, e.hit);
    } else {
      forall k: MissileType, i | 0 <= i < p.n ensures HasCell(Next(p, w, e), k, i) {
        assert HasCell(w, k, i);
        if e.Search? { SearchKeepsCells(p, w, e, k, i); } else { RecordStepKeepsCells(p, w, e, k, i); }
      }
    }
  }

  /** No event of the run erases a neighbour. */
  ghost predicate SpawnsFree(p: Params, w: World, run: Run)
    requires Feasible(p, w, run)
    decreases |run|
  {
    run != [] ==> !ErasesNeighbour(w, run[0]) && SpawnsFree(p, Next(p, w, run[0]), run[1..])
  }

  lemma {:induction false} RunKeepsCells(p: Params, w: World, run: Run)
    requires Sound(p) && Inv(p, w) && AllHaveCells(p, w) && Feasible(p, w, run) && SpawnsFree(p, w, run)
    ensures Inv(p, Exec(p, w, run)) && AllHaveCells(p, Exec(p, w, run))
    decreases |run|
  {
    if run != [] {
      StepKeepsCells(p, w, run[0]);
      RunKeepsCells(p, Next(p, w, run[0]), run[1..]);
    }
  }

  /** Full grid agreement: if no first update finds a missile on its spawn cell,
      then in every reachable state a cell is of type k and value i exactly when
      missile (k, i) is live, undeleted and was last placed there. */
  lemma GridAgreement(p: Params, w0: World, run: Run)
    requires Sound(p) && Init(p, w0) && Feasible(p, w0, run) && SpawnsFree(p, w0, run)
    ensures var w := Exec(p, w0, run);
      forall k: MissileType, i, q | q in w.mem.cell ::
        (w.mem.cell[q].ctype == CellTypeOf(k) && w.mem.cell[q].value == i) <==> Owns(w, k, i, q)
  {
    InitInv(p, w0);
    RunKeepsCells(p, w0, run);
    var w := Exec(p, w0, run);
    forall k: MissileType, i, q | q in w.mem.cell && Owns(w, k, i, q)
      ensures w.mem.cell[q].ctype == CellTypeOf(k) && w.mem.cell[q].value == i
    {
      assert HasCell(w, k, i);
    }
  }

  /** The agreement holds in every state of the run. */
  ghost predicate AgreesThroughout(p: Params, w: World, run: Run)
    requires Feasible(p, w, run)
    decreases |run|
  {
    AllHaveCells(p, w) && (run != [] ==> AgreesThroughout(p, Next(p, w, run[0]), run[1..]))
  }

  /** Exactly the runs in which no first update finds a missile on its spawn cell
      keep the agreement in all their states. */
  lemma {:induction false} AgreementIff(p: Params, w: World, run: Run)
    requires Sound(p) && Inv(p, w) && AllHaveCells(p, w) && Feasible(p, w, run)
    ensures AgreesThroughout(p, w, run) <==> SpawnsFree(p, w, run)
    decreases |run|
  {
    if run != [] {
      var e := run[0];
      StepInv(p, w, e);
      if ErasesNeighbour(w, e) {
        AgreementDamageIff(p, w, e.k, e.i, e.hit);
      } else {
        StepKeepsCells(p, w, e);
        AgreementIff(p, Next(p, w, e), run[1..]);
      }
    }
  }

  /** The agreement is not a theorem without the hypothesis: two attackers drawn
      in the same column, the first of which has not left its spawn cell. */
  function SameColumn(p: Params, x: int): Run {
    var q := AtkSpawn(p, x);
    [LaunchAtk(0, x), Move(ATTACKER, 0, q), Update(ATTACKER, 0, None),
     LaunchAtk(1, x), Move(ATTACKER, 1, q), Update(ATTACKER, 1, None)]
  }

  /** One attacker is launched at the column, does not leave its spawn cell when it
      moves, and its first update finds an empty box. */
  lemma LaunchAndPlace(p: Params, w: World, i: nat, x: int) returns (w3: World)
    requires Sound(p) && Inv(p, w) && i < p.n && w.atkPhase[i].Free?
    requires InBorders(p, AtkSpawn(p, x))
    requires forall c | c in w.mem.cell && c != AtkSpawn(p, x) && InBox(BoxAround(p, AtkSpawn(p, x)), c) ::
      w.mem.cell[c] == BLANK_CELL
    ensures var q := AtkSpawn(p, x); var run := [LaunchAtk(i, x), Move(ATTACKER, i, q), Update(ATTACKER, i, None)];
      && Feasible(p, w, run) && w3 == Exec(p, w, run)
    ensures Inv(p, w3)
    ensures w3.atkPhase == w.atkPhase[i := Loop(true)]
    ensures w3.mem.cell == w.mem.cell[AtkSpawn(p, x) := Cell(ATK_MISSILE, i, NONE)]
    ensures w3.mem.atk == w.mem.atk[i := NewAttacker(p, i, x)]
    ensures w3.mem.def == w.mem.def && w3.defPhase == w.defPhase && w3.launcher == w.launcher
  {
    var q := AtkSpawn(p, x);
    var e0, e1, e2 := LaunchAtk(i, x), Move(ATTACKER, i, q), Update(ATTACKER, i, None);
    StepInv(p, w, e0);
    var w1 := Next(p, w, e0);
    StepInv(p, w1, e1);
    var w2 := Next(p, w1, e1);
    assert w2.mem.cell == w.mem.cell && w2.mem.atk == w.mem.atk[i := NewAttacker(p, i, x)];
    assert FirstHit(Erase(w2.mem, q).cell, BoxAround(p, q), ATTACKER, i, None);
    assert Enabled(p, w2, e2);
    StepInv(p, w2, e2);
    w3 := Next(p, w2, e2);
    var run := [e0, e1, e2];
    assert run[1..] == [e1, e2] && [e1, e2][1..] == [e2] && [e2][1..] == [];
    assert Feasible(p, w3, []) && Exec(p, w3, []) == w3;
    assert Feasible(p, w2, [e2]) && Exec(p, w2, [e2]) == w3;
    assert Feasible(p, w1, [e1, e2]) && Exec(p, w1, [e1, e2]) == w3;
  }

  /** One period of a movement loop that meets nothing. */
  function Period(k: MissileType, i: nat, to: Pos): Run {
    [Move(k, i, to), Update(k, i, None)]
  }

  /** A missile that moves to a position whose box is empty but for its old cell is
      placed there, and nothing else changes. */
  lemma FlyAndPlace(p: Params, w: World, k: MissileType, i: nat, to: Pos) returns (w2: World)
    requires Sound(p) && Inv(p, w) && i < p.n && w.Phases(k)[i].Loop? && !w.mem.Queue(k)[i].deleted
    requires InBorders(p, to)
    requires forall c | c in w.mem.cell && c != w.mem.Queue(k)[i].pos && InBox(BoxAround(p, to), c) ::
      w.mem.cell[c] == BLANK_CELL
    ensures Feasible(p, w, Period(k, i, to)) && w2 == Exec(p, w, Period(k, i, to)) && Inv(p, w2)
    ensures var r := w.mem.Queue(k)[i];
      && w2.mem.cell == w.mem.cell[r.pos := BLANK_CELL][to := Cell(CellTypeOf(k), i, r.target)]
      && w2.mem.Queue(k) == w.mem.Queue(k)[i := r.(pos := to)] && w2.Phases(k) == w.Phases(k)[i := Loop(true)]
    ensures forall kk: MissileType | kk != k ::
      w2.mem.Queue(kk) == w.mem.Queue(kk) && w2.Phases(kk) == w.Phases(kk)
    ensures w2.launcher == w.launcher
  {
    var e1, e2 := Move(k, i, to), Update(k, i, None);
    var r := w.mem.Queue(k)[i];
    assert SlotOk(p, k, i, r, w.Phases(k)[i]);
    StepInv(p, w, e1);
    var w1 := Next(p, w, e1);
    assert w1.mem.cell == w.mem.cell && w1.mem.Queue(k)[i] == r.(pos := to);
    assert FirstHit(Erase(w1.mem, r.pos).cell, BoxAround(p, to), k, i, None);
    assert Enabled(p, w1, e2);
    StepInv(p, w1, e2);
    w2 := Next(p, w1, e2);
    var run := Period(k, i, to);
    assert run[1..] == [e2] && [e2][1..] == [];
    assert Feasible(p, w2, []) && Exec(p, w2, []) == w2;
    assert Feasible(p, w1, [e2]) && Exec(p, w1, [e2]) == w2;
  }

  /** Around an inside position the initial grid is empty. */
  lemma EmptyAround(p: Params, centre: Pos)
    requires Sound(p) && Inside(p, centre)
    ensures InBorders(p, centre)
    ensures forall q | InBorders(p, q) && InBox(BoxAround(p, centre), q) :: InitCell(p, q) == BLANK_CELL
  {
  }

  lemma AgreementCanBreak(p: Params, w0: World, x: int)
    requires Sound(p) && Init(p, w0) && p.n >= 2 && Inside(p, AtkSpawn(p, x))
    ensures var run := SameColumn(p, x);
      && Feasible(p, w0, run)
      && (forall e | e in run :: SpawnClear(p, e))
      && !AllHaveCells(p, Exec(p, w0, run))
  {
    var q := AtkSpawn(p, x);
    var run := SameColumn(p, x);
    InitInv(p, w0);
    EmptyAround(p, q);
    assert w0.Phases(ATTACKER)[0].Free? && w0.Phases(ATTACKER)[1].Free?;
    var w3 := LaunchAndPlace(p, w0, 0, x);
    var w6 := LaunchAndPlace(p, w3, 1, x);
    assert run == run[..3] + run[3..];
    assert run[..3] == [LaunchAtk(0, x), Move(ATTACKER, 0, q), Update(ATTACKER, 0, None)];
    assert run[3..] == [LaunchAtk(1, x), Move(ATTACKER, 1, q), Update(ATTACKER, 1, None)];
    RunAppend(p, w0, run[..3], run[3..]);
    assert Owns(w6, ATTACKER, 0, q);
    assert !HasCell(w6, ATTACKER, 0);
  }

  lemma {:induction false} RunAppend(p: Params, w: World, a: Run, b: Run)
    requires Feasible(p, w, a) && Feasible(p, Exec(p, w, a), b)
    ensures Feasible(p, w, a + b) && Exec(p, w, a + b) == Exec(p, Exec(p, w, a), b)
    decreases |a|
  {
    if a == [] {
      assert a + b == b;
    } else {
      assert (a + b)[1..] == a[1..] + b;
      RunAppend(p, Next(p, w, a[0]), a[1..], b);
    }
  }
}
