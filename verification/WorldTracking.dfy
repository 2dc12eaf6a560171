/** Targets: the target copied into a cell agrees with the attacker's record, so
    the two searches over the grid find what they are meant to find. */
module WorldTracking {
  import opened Options
  import opened Missiles
  import opened World
  import opened WorldScore
  import opened WorldAgreement

  /** Every attacker cell carries its record's target; no other cell has a target. */
  predicate CellTargetOk(m: Memory, q: Pos)
    requires q in m.cell
  {
    var c := m.cell[q];
    if c.ctype == ATK_MISSILE then 0 <= c.value < |m.atk| && c.target == m.atk[c.value].target
    else c.target < 0
  }

  ghost predicate CacheOk(p: Params, w: World)
    requires Typed(p, w)
  {
    && (forall q | q in w.mem.cell :: CellTargetOk(w.mem, q))
    && (forall i | 0 <= i < p.n :: w.mem.def[i].target == NONE)
  }

  /** check_pixel tests the colour of the pixel, not the type of the cell: the screen
      misleads the search when the row-major first candidate is no attacker cell. */
  ghost predicate Misleads(m: Memory, red: set<Pos>) {
    exists f :: SearchFinds(m, red, Some(f)) && m.cell[f].ctype != ATK_MISSILE
  }

  /** The search has one outcome. */
  lemma FoundUnique(m: Memory, red: set<Pos>, f: Pos, f': Pos)
    requires SearchFinds(m, red, Some(f)) && SearchFinds(m, red, Some(f'))
    ensures f == f'
  {
    assert RowMajor(f, f') || RowMajor(f', f) || f == f';
  }

  /** The screen misleads no search of the event. */
  ghost predicate ScreenSound(w: World, e: Event) {
    e.Search? ==> !Misleads(w.mem, e.red)
  }

  lemma InitCache(p: Params, w: World)
    requires Sound(p) && Init(p, w)
    ensures CacheOk(p, w)
  {
    forall i | 0 <= i < p.n ensures w.mem.def[i].target == NONE {
      assert w.mem.Queue(DEFENDER)[i] == EMPTY_MISSILE;
    }
  }

  lemma UpdateKeepsCellTarget(p: Params, w: World, k: MissileType, i: nat, hit: Option<Pos>, q: Pos)
    requires Inv(p, w) && CacheOk(p, w) && Enabled(p, w, Update(k, i, hit)) && q in w.mem.cell
    ensures var m' := Next(p, w, Update(k, i, hit)).mem;
      q in m'.cell && CellTargetOk(m', q)
  {
    assert SlotOk(p, k, i, w.mem.Queue(k)[i], w.Phases(k)[i]);
    assert CellTargetOk(w.mem, q);
    UpdatedPhase(p, w, k, i, hit, k, i);
    UpdatedCell(p, w, k, i, hit, q);
    UpdatedRecord(p, w, k, i, hit, ATTACKER, i);
    var c := w.mem.cell[q];
    if c.ctype == ATK_MISSILE { UpdatedRecord(p, w, k, i, hit, ATTACKER, c.value); }
  }

  lemma UpdateKeepsCache(p: Params, w: World, k: MissileType, i: nat, hit: Option<Pos>)
    requires Inv(p, w) && CacheOk(p, w) && Enabled(p, w, Update(k, i, hit))
    requires Typed(p, Next(p, w, Update(k, i, hit)))
    ensures CacheOk(p, Next(p, w, Update(k, i, hit)))
  {
    var w' := Next(p, w, Update(k, i, hit));
    forall q | q in w'.mem.cell ensures CellTargetOk(w'.mem, q) {
      UpdateKeepsCellTarget(p, w, k, i, hit, q);
    }
    forall j | 0 <= j < p.n ensures w'.mem.def[j].target == NONE {
      UpdatedPhase(p, w, k, i, hit, DEFENDER, j);
      UpdatedRecord(p, w, k, i, hit, DEFENDER, j);
    }
  }

  /** A search that picks an attacker cell labels it and its own record. */
  lemma SearchKeepsCache(p: Params, w: World, red: set<Pos>, f: Pos)
    requires Inv(p, w) && CacheOk(p, w) && Enabled(p, w, Search(red, Some(f)))
    requires w.mem.cell[f].ctype == ATK_MISSILE && Typed(p, Next(p, w, Search(red, Some(f))))
    ensures CacheOk(p, Next(p, w, Search(red, Some(f))))
  {
    var w' := Next(p, w, Search(red, Some(f)));
    forall q | q in w'.mem.cell ensures CellTargetOk(w'.mem, q) {
      assert CellTargetOk(w.mem, q);
      if w.mem.cell[q].ctype == ATK_MISSILE && q != f {
        assert Owns(w, ATTACKER, w.mem.cell[q].value, q) && Owns(w, ATTACKER, w.mem.cell[f].value, f);
      }
    }
  }

  /** Exactly when a search breaks the cache: when the screen misleads it. Then it
      labels a cell that is no attacker's, and an unrelated attacker record. */
  lemma SearchBreaksCacheIff(p: Params, w: World, red: set<Pos>, found: Option<Pos>)
    requires Inv(p, w) && CacheOk(p, w) && Enabled(p, w, Search(red, found))
    ensures Typed(p, Next(p, w, Search(red, found)))
    ensures CacheOk(p, Next(p, w, Search(red, found))) <==> !Misleads(w.mem, red)
  {
    var w' := Next(p, w, Search(red, found));
    SearchStepInv(p, w, Search(red, found));
    if f :| SearchFinds(w.mem, red, Some(f)) && w.mem.cell[f].ctype != ATK_MISSILE {
      assert found.Some? by { assert Candidate(w.mem, red, f); }
      FoundUnique(w.mem, red, f, found.value);
      assert !CellTargetOk(w'.mem, f);
    } else if found.Some? {
      SearchKeepsCache(p, w, red, found.value);
    }
  }

  /** Record events change the target only of attackers that own no cell. */
  lemma RecordStepKeepsCellTarget(p: Params, w: World, e: Event, q: Pos)
    requires Inv(p, w) && CacheOk(p, w) && Enabled(p, w, e) && !e.Update? && !e.Search? && q in w.mem.cell
    ensures var m' := Next(p, w, e).mem; q in m'.cell && CellTargetOk(m', q)
  {
    assert CellTargetOk(w.mem, q);
    var c := w.mem.cell[q];
    RecordFrame(p, w, e, ATTACKER, 0);
    if c.ctype == ATK_MISSILE {
      assert Owns(w, ATTACKER, c.value, q);
      RecordFrame(p, w, e, ATTACKER, c.value);
    }
  }

  lemma RecordStepKeepsCache(p: Params, w: World, e: Event)
    requires Sound(p) && Inv(p, w) && CacheOk(p, w) && Enabled(p, w, e) && !e.Update? && !e.Search?
    requires Typed(p, Next(p, w, e))
    ensures CacheOk(p, Next(p, w, e))
  {
    var w' := Next(p, w, e);
    RecordFrame(p, w, e, ATTACKER, 0);
    forall q | q in w'.mem.cell ensures CellTargetOk(w'.mem, q) {
      RecordStepKeepsCellTarget(p, w, e, q);
    }
    forall j | 0 <= j < p.n ensures w'.mem.def[j].target == NONE {
      RecordFrame(p, w, e, DEFENDER, j);
    }
  }

  lemma StepKeepsCache(p: Params, w: World, e: Event)
    requires Sound(p) && Inv(p, w) && CacheOk(p, w) && Enabled(p, w, e) && ScreenSound(w, e)
    ensures Inv(p, Next(p, w, e)) && CacheOk(p, Next(p, w, e))
  {
    StepInv(p, w, e);
    match e
    case Update(k, i, hit) => UpdateKeepsCache(p, w, k, i, hit);
    case Search(red, found) => SearchBreaksCacheIff(p, w, red, found);
    case _ => RecordStepKeepsCache(p, w, e);
  }

  /** The screen hypothesis at every search of the run. */
  ghost predicate ScreensSound(p: Params, w: World, run: Run)
    requires Feasible(p, w, run)
    decreases |run|
  {
    run != [] ==> ScreenSound(w, run[0]) && ScreensSound(p, Next(p, w, run[0]), run[1..])
  }

  lemma {:induction false} RunKeepsCache(p: Params, w: World, run: Run)
    requires Sound(p) && Inv(p, w) && CacheOk(p, w) && Feasible(p, w, run) && ScreensSound(p, w, run)
    ensures Inv(p, Exec(p, w, run)) && CacheOk(p, Exec(p, w, run))
    decreases |run|
  {
    if run != [] {
      StepKeepsCache(p, w, run[0]);
      RunKeepsCache(p, Next(p, w, run[0]), run[1..]);
    }
  }

  /** The cache is right in every state of the run. */
  ghost predicate CacheThroughout(p: Params, w: World, run: Run)
    requires Feasible(p, w, run)
    decreases |run|
  {
    CacheOk(p, w) && (run != [] ==> CacheThroughout(p, Next(p, w, run[0]), run[1..]))
  }

  /** Exactly the runs in which the screen misleads no search keep the cache right in
      all their states. */
  lemma {:induction false} CacheIff(p: Params, w: World, run: Run)
    requires Sound(p) && Inv(p, w) && CacheOk(p, w) && Feasible(p, w, run)
    ensures CacheThroughout(p, w, run) <==> ScreensSound(p, w, run)
    decreases |run|
  {
    if run != [] {
      var e := run[0];
      if ScreenSound(w, e) {
        StepKeepsCache(p, w, e);
        CacheIff(p, Next(p, w, e), run[1..]);
      } else {
        SearchBreaksCacheIff(p, w, e.red, e.found);
      }
    }
  }

  /** Target cache agreement in every reachable state. */
  lemma TargetCacheAgreement(p: Params, w0: World, run: Run)
    requires Sound(p) && Init(p, w0) && Feasible(p, w0, run) && ScreensSound(p, w0, run)
    ensures var w := Exec(p, w0, run);
      forall q | q in w.mem.cell ::
        if w.mem.cell[q].ctype == ATK_MISSILE
        then Owns(w, ATTACKER, w.mem.cell[q].value, q) && w.mem.cell[q].target == w.mem.atk[w.mem.cell[q].value].target
        else w.mem.cell[q].target < 0
  {
    InitInv(p, w0);
    InitCache(p, w0);
    RunKeepsCache(p, w0, run);
    var w := Exec(p, w0, run);
    forall q | q in w.mem.cell ensures CellTargetOk(w.mem, q) { }
  }

  /** The live placed attacker i is assigned target t. */
  predicate Pursued(p: Params, w: World, i: int, t: int) {
    0 <= i < p.n && i < |w.mem.atk| && i < |w.atkPhase|
    && Owns(w, ATTACKER, i, Committed(w.mem.atk[i], w.atkPhase[i])) && w.mem.atk[i].target == t
  }

  /** A pursued attacker has its cell, with its index and its target. */
  lemma PursuedInGrid(p: Params, w0: World, run: Run, i: int, t: int)
    requires Sound(p) && Init(p, w0) && Feasible(p, w0, run)
    requires ScreensSound(p, w0, run) && SpawnsFree(p, w0, run) && Pursued(p, Exec(p, w0, run), i, t)
    ensures var w := Exec(p, w0, run); var q := Committed(w.mem.atk[i], w.atkPhase[i]);
      q in w.mem.cell && w.mem.cell[q].ctype == ATK_MISSILE && w.mem.cell[q].value == i && w.mem.cell[q].target == t
  {
    TargetCacheAgreement(p, w0, run);
    GridAgreement(p, w0, run);
    InitInv(p, w0);
    RunInv(p, w0, run);
    var w := Exec(p, w0, run);
    var q := Committed(w.mem.atk[i], w.atkPhase[i]);
    assert SlotOk(p, ATTACKER, i, w.mem.Queue(ATTACKER)[i], w.Phases(ATTACKER)[i]);
    assert q in Grid(p);
    assert Owns(w, ATTACKER, i, q);
  }

  /** A cell with a target t >= 0 belongs to a pursued attacker. */
  lemma TargetCellPursued(p: Params, w0: World, run: Run, t: int, r: Pos)
    requires Sound(p) && Init(p, w0) && Feasible(p, w0, run) && ScreensSound(p, w0, run)
    requires t >= 0 && r in Exec(p, w0, run).mem.cell && Exec(p, w0, run).mem.cell[r].target == t
    ensures var w := Exec(p, w0, run);
      Pursued(p, w, w.mem.cell[r].value, t) && Owns(w, ATTACKER, w.mem.cell[r].value, r)
  {
    TargetCacheAgreement(p, w0, run);
  }

  /** The cells of pursued attackers are where the scan looks. */
  ghost predicate PursuedShown(p: Params, w: World, t: int)
    requires Typed(p, w)
  {
    forall i | Pursued(p, w, i, t) ::
      var q := Committed(w.mem.atk[i], w.atkPhase[i]);
      q in w.mem.cell && w.mem.cell[q].value == i && w.mem.cell[q].target == t
  }

  /** Of two pursued attackers the scan meets the one it returns first. */
  lemma ScanOrder(p: Params, w: World, t: int, r: Pos, i: int)
    requires Typed(p, w) && PursuedShown(p, w, t) && ScanFinds(w.mem, t, r) && Pursued(p, w, i, t)
    ensures r != Pos(NONE, NONE) && r in w.mem.cell
    ensures i != w.mem.cell[r].value ==> ColumnMajor(r, Committed(w.mem.atk[i], w.atkPhase[i]))
  {
    var q := Committed(w.mem.atk[i], w.atkPhase[i]);
    assert q in w.mem.cell && w.mem.cell[q].target == t;
  }

  /** scan_env_for_target_pos(t) finds the position of the column-major first
      attacker cell assigned t, and returns (NONE, NONE) exactly when no live
      placed attacker is assigned t. */
  lemma ScanFindsTarget(p: Params, w0: World, run: Run, t: int, r: Pos)
    requires Sound(p) && Init(p, w0) && Feasible(p, w0, run)
    requires ScreensSound(p, w0, run) && SpawnsFree(p, w0, run)
    requires t >= 0 && ScanFinds(Exec(p, w0, run).mem, t, r)
    ensures var w := Exec(p, w0, run);
      && (r == Pos(NONE, NONE) <==> forall i :: !Pursued(p, w, i, t))
      && (r != Pos(NONE, NONE) ==>
            && r in w.mem.cell
            && Pursued(p, w, w.mem.cell[r].value, t) && Owns(w, ATTACKER, w.mem.cell[r].value, r)
            && forall i | Pursued(p, w, i, t) && i != w.mem.cell[r].value ::
                 var q := Committed(w.mem.atk[i], w.atkPhase[i]);
                 r.x < q.x || (r.x == q.x && r.y < q.y))
  {
    var w := Exec(p, w0, run);
    assert PursuedShown(p, w, t) by {
      forall i | Pursued(p, w, i, t)
        ensures var q := Committed(w.mem.atk[i], w.atkPhase[i]);
          q in w.mem.cell && w.mem.cell[q].value == i && w.mem.cell[q].target == t
      {
        PursuedInGrid(p, w0, run, i, t);
      }
    }
    forall i | Pursued(p, w, i, t)
      ensures r != Pos(NONE, NONE) && r in w.mem.cell
      ensures i != w.mem.cell[r].value ==> ColumnMajor(r, Committed(w.mem.atk[i], w.atkPhase[i]))
    {
      ScanOrder(p, w, t, r, i);
    }
    if r != Pos(NONE, NONE) { TargetCellPursued(p, w0, run, t, r); }
  }

  // ----- tracking stability -----

  /** Attacker a is assigned to defender index t, and that defender is alive or
      about to be launched. */
  predicate Tracking(w: World, a: nat, t: int) {
    && a < |w.atkPhase| && a < |w.mem.atk| && !w.atkPhase[a].Free?
    && 0 <= t < |w.mem.def| && w.mem.atk[a].target == t
    && (w.mem.def[t].index == t || w.launcher == Found(t))
  }

  /** A search never reassigns a tracked attacker. */
  lemma SearchKeepsTracking(p: Params, w: World, e: Event, a: nat, t: int)
    requires Inv(p, w) && CacheOk(p, w) && Enabled(p, w, e) && e.Search? && ScreenSound(w, e) && Tracking(w, a, t)
    ensures Tracking(Next(p, w, e), a, t)
  {
    assert Tracked(w.mem, t);
    if e.found.Some? {
      var f := e.found.value;
      assert w.mem.cell[f].ctype == ATK_MISSILE && CellTargetOk(w.mem, f);
      assert w.mem.cell[f].value != a;
    }
  }

  lemma UpdateKeepsTracking(p: Params, w: World, k: MissileType, i: nat, hit: Option<Pos>, a: nat, t: int)
    requires Inv(p, w) && Enabled(p, w, Update(k, i, hit)) && Tracking(w, a, t)
    ensures Tracking(Next(p, w, Update(k, i, hit)), a, t)
  {
    UpdatedRecord(p, w, k, i, hit, ATTACKER, a);
    UpdatedPhase(p, w, k, i, hit, ATTACKER, a);
    UpdatedRecord(p, w, k, i, hit, DEFENDER, t);
    UpdatedPhase(p, w, k, i, hit, DEFENDER, t);
  }

  lemma RecordStepKeepsTracking(p: Params, w: World, e: Event, a: nat, t: int)
    requires Inv(p, w) && Enabled(p, w, e) && !e.Update? && !e.Search? && Tracking(w, a, t)
    requires e != Clear(ATTACKER, a) && e != Clear(DEFENDER, t)
    ensures Tracking(Next(p, w, e), a, t)
  {
    RecordFrame(p, w, e, ATTACKER, a);
    RecordFrame(p, w, e, DEFENDER, t);
    assert SlotOk(p, DEFENDER, t, w.mem.Queue(DEFENDER)[t], w.Phases(DEFENDER)[t]);
  }

  lemma StepKeepsTracking(p: Params, w: World, e: Event, a: nat, t: int)
    requires Inv(p, w) && CacheOk(p, w) && Enabled(p, w, e) && ScreenSound(w, e) && Tracking(w, a, t)
    requires e != Clear(ATTACKER, a) && e != Clear(DEFENDER, t)
    ensures Tracking(Next(p, w, e), a, t)
  {
    match e
    case Update(k, i, hit) => UpdateKeepsTracking(p, w, k, i, hit, a, t);
    case Search(_, _) => SearchKeepsTracking(p, w, e, a, t);
    case _ => RecordStepKeepsTracking(p, w, e, a, t);
  }

  /** Tracking stability: an attacker assigned to a live defender keeps that
      assignment until the attacker or the defender is cleared. */
  lemma {:induction false} TrackingStable(p: Params, w: World, run: Run, a: nat, t: int)
    requires Sound(p) && Inv(p, w) && CacheOk(p, w) && Feasible(p, w, run) && ScreensSound(p, w, run)
    requires Tracking(w, a, t)
    requires Clear(ATTACKER, a) !in run && Clear(DEFENDER, t) !in run
    ensures Tracking(Exec(p, w, run), a, t)
    decreases |run|
  {
    if run != [] {
      assert run[0] in run;
      StepKeepsCache(p, w, run[0]);
      StepKeepsTracking(p, w, run[0], a, t);
      TrackingStable(p, Next(p, w, run[0]), run[1..], a, t);
    }
  }

  /** A successful search starts such a tracking, for the attacker of the row-major
      first untracked attacker cell, and changes no other record or cell. */
  lemma SearchStartsTracking(p: Params, w: World, red: set<Pos>, f: Pos)
    requires Inv(p, w) && CacheOk(p, w) && Enabled(p, w, Search(red, Some(f))) && !Misleads(w.mem, red)
    ensures var w' := Next(p, w, Search(red, Some(f))); var a := w.mem.cell[f].value;
      && Owns(w, ATTACKER, a, f) && !Tracked(w.mem, w.mem.atk[a].target)
      && Tracking(w', a, w.launcher.t)
      && (forall i | 0 <= i < p.n && i != a :: w'.mem.atk[i] == w.mem.atk[i])
      && (forall q | q in w.mem.cell && q != f :: w'.mem.cell[q] == w.mem.cell[q])
      && w'.mem.def == w.mem.def
  {
    assert w.mem.cell[f].ctype == ATK_MISSILE;
    assert CellTargetOk(w.mem, f);
    assert Owns(w, ATTACKER, w.mem.cell[f].value, f);
  }

  /** A search must succeed: if it finds nothing, every red attacker cell has a target
      that is the index of some defender record; and so has every red attacker cell in
      a row above the one it finds, or to its left. */
  lemma SearchMustFind(p: Params, w: World, red: set<Pos>, found: Option<Pos>, q: Pos)
    requires Inv(p, w) && Enabled(p, w, Search(red, found))
    requires q in red && q in w.mem.cell && w.mem.cell[q].ctype == ATK_MISSILE
    requires found.Some? ==> q.y < found.value.y || (q.y == found.value.y && q.x < found.value.x)
    ensures w.mem.cell[q].target >= 0
    ensures exists d :: 0 <= d < p.n && w.mem.def[d].index == w.mem.cell[q].target
  {
    assert !Candidate(w.mem, red, q);
  }

  /** What a search finds is red, has a missile, and its target, if any, is the index of
      no defender record. */
  lemma SearchFindsUntracked(p: Params, w: World, red: set<Pos>, f: Pos)
    requires Inv(p, w) && Enabled(p, w, Search(red, Some(f)))
    ensures f in red && f in w.mem.cell && w.mem.cell[f].value >= 0
    ensures w.mem.cell[f].target < 0 || forall d | 0 <= d < p.n :: w.mem.def[d].index != w.mem.cell[f].target
  {
    assert Candidate(w.mem, red, f);
  }

  /** An attacker whose defender is gone is found again: in every run with a sound screen,
      a search that finds nothing leaves no red live attacker without a defender record
      under its target. */
  lemma NobodyOverlooked(p: Params, w0: World, run: Run, red: set<Pos>, a: nat, q: Pos)
    requires Sound(p) && Init(p, w0) && Feasible(p, w0, run) && ScreensSound(p, w0, run) && SpawnsFree(p, w0, run)
    requires Enabled(p, Exec(p, w0, run), Search(red, None))
    requires a < p.n && q in red && Owns(Exec(p, w0, run), ATTACKER, a, q)
    ensures var w := Exec(p, w0, run);
      0 <= w.mem.atk[a].target && exists d :: 0 <= d < p.n && w.mem.def[d].index == w.mem.atk[a].target
  {
    var w := Exec(p, w0, run);
    assert Pursued(p, w, a, w.mem.atk[a].target);
    PursuedInGrid(p, w0, run, a, w.mem.atk[a].target);
    InitInv(p, w0);
    RunInv(p, w0, run);
    SearchMustFind(p, w, red, None, q);
  }

  // ----- a search that other tasks interrupt -----

  /** The events that can happen between the tests of a search: those outside
      access_env and release_env that are not the searching launcher's own. */
  predicate Unlocked(e: Event) {
    e.LaunchAtk? || e.Aim? || e.Move? || e.Clear?
  }

  /** The state after the first n events of a run. */
  ghost function StateAfter(p: Params, w: World, run: Run, n: nat): (w': World)
    requires Feasible(p, w, run) && n <= |run|
    ensures Typed(p, w')
    decreases n
  {
    if n == 0 then w else StateAfter(p, Next(p, w, run[0]), run[1..], n - 1)
  }

  /** Such an event leaves the grid and the launcher alone, and no index becomes
      tracked by it: only the launcher fills a defender's record. */
  lemma UnlockedStep(p: Params, w: World, e: Event)
    requires Sound(p) && Inv(p, w) && Enabled(p, w, e) && Unlocked(e)
    ensures var w' := Next(p, w, e);
      && Inv(p, w') && w'.mem.cell == w.mem.cell && w'.launcher == w.launcher
      && forall t | Tracked(w'.mem, t) :: Tracked(w.mem, t)
  {
    var w' := Next(p, w, e);
    StepInv(p, w, e);
    RecordFrame(p, w, e, DEFENDER, 0);
    forall t | Tracked(w'.mem, t) ensures Tracked(w.mem, t) {
      var i :| 0 <= i < |w'.mem.def| && w'.mem.def[i].index == t;
      RecordFrame(p, w, e, DEFENDER, i);
      assert SlotOk(p, DEFENDER, i, w.mem.Queue(DEFENDER)[i], w.Phases(DEFENDER)[i]);
      assert w.mem.def[i].index == t;
    }
  }

  /** So what is tracked at the end of the search was tracked at each of its tests. */
  lemma {:induction false} UnlockedRun(p: Params, w: World, run: Run, n: nat)
    requires Sound(p) && Inv(p, w) && Feasible(p, w, run) && (forall e | e in run :: Unlocked(e)) && n <= |run|
    ensures var w' := Exec(p, w, run);
      && Inv(p, w') && w'.mem.cell == w.mem.cell && w'.launcher == w.launcher
      && StateAfter(p, w, run, n).mem.cell == w.mem.cell
      && forall t | Tracked(w'.mem, t) :: Tracked(StateAfter(p, w, run, n).mem, t)
    decreases |run|
  {
    if run != [] {
      UnlockedStep(p, w, run[0]);
      UnlockedRun(p, Next(p, w, run[0]), run[1..], if n == 0 then 0 else n - 1);
      assert StateAfter(p, Next(p, w, run[0]), run[1..], 0) == Next(p, w, run[0]);
    }
  }

  /** check_pixel accepts q, which it reads after at(q) events of the run. */
  ghost predicate Accepts(p: Params, w: World, run: Run, red: set<Pos>, at: Pos -> nat, q: Pos)
    requires Feasible(p, w, run)
  {
    q in w.mem.cell && at(q) <= |run| && Candidate(StateAfter(p, w, run, at(q)).mem, red, q)
  }

  /** search_screen_for_target while other tasks run: `found` is the row-major first
      pixel that check_pixel accepts, each at its own time. */
  ghost predicate InterruptedFinds(
    p: Params, w: World, run: Run, red: set<Pos>, at: Pos -> nat, found: Option<Pos>)
    requires Feasible(p, w, run)
  {
    match found
    case None => forall q | q in w.mem.cell :: !Accepts(p, w, run, red, at, q)
    case Some(f) =>
      Accepts(p, w, run, red, at, f)
      && forall q | q in w.mem.cell && RowMajor(q, f) :: !Accepts(p, w, run, red, at, q)
  }

  /** The search does not hold the queue's mutex, so attackers are launched, missiles
      move and defenders are cleared while it scans. It is World's Search event at
      its end, over the pixels it accepted. */
  lemma InterruptedSearch(p: Params, w: World, run: Run, red: set<Pos>, at: Pos -> nat, found: Option<Pos>)
    returns (seen: set<Pos>)
    requires Sound(p) && Inv(p, w) && w.launcher.Holding?
    requires Feasible(p, w, run) && (forall e | e in run :: Unlocked(e))
    requires (forall q | q in w.mem.cell :: at(q) <= |run|) && InterruptedFinds(p, w, run, red, at, found)
    ensures seen <= red && Enabled(p, Exec(p, w, run), Search(seen, found))
  {
    seen := set q | q in red && Accepts(p, w, run, red, at, q);
    UnlockedRun(p, w, run, 0);
    var m := Exec(p, w, run).mem;
    forall q | q in w.mem.cell ensures Candidate(m, seen, q) <==> Accepts(p, w, run, red, at, q) {
      UnlockedRun(p, w, run, at(q));
    }
    assert SearchFinds(m, seen, found);
  }
}
