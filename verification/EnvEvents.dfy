/** The functions of EnvGrid perform the events of World: run on arrays that hold the
    memory of a reachable world, each leaves the memory of the next one. */
module EnvEvents {
  import opened Options
  import opened Missiles
  import opened EnvGrid
  import opened World

  /** The arrays hold the memory of the world. */
  ghost predicate Holds(env: Env, w: World)
    reads env, env.cell, env.atk, env.def
  {
    env.Valid() && env.Mem() == w.mem && Sound(env.p) && Inv(env.p, w)
  }

  /** init_env and init_launchers: an initial world. */
  method Begin(p: Params) returns (env: Env, ghost w: World)
    requires Sound(p)
    ensures fresh(env) && env.p == p && Init(p, w) && Holds(env, w)
  {
    env := new Env(p);
    var none := seq(p.n, _ => Free);
    w := World(env.Mem(), none, none, Seeking, 0, 0, 0, 0);
    InitInv(p, w);
  }

  /** launch_atk_missile, lines 520-531 of launchers.c; the column is random. */
  method LaunchAttacker(env: Env, ghost w: World, i: nat, x: int)
    requires Holds(env, w) && Enabled(env.p, w, LaunchAtk(i, x))
    modifies env.atk
    ensures Holds(env, Next(env.p, w, LaunchAtk(i, x)))
  {
    StepInv(env.p, w, LaunchAtk(i, x));
    env.InitAtkMissile(i, x);
  }

  /** The search of def_launcher, line 919 of launchers.c. */
  method SearchTarget(env: Env, ghost w: World, red: set<Pos>, t: nat) returns (ret: bool, ghost found: Option<Pos>)
    requires Holds(env, w) && w.launcher == Holding(t)
    modifies env.cell, env.atk
    ensures Enabled(env.p, w, Search(red, found)) && Holds(env, Next(env.p, w, Search(red, found)))
    ensures ret <==> found.Some?
  {
    ret, found := env.SearchScreenForTarget(red, t);
    StepInv(env.p, w, Search(red, found));
  }

  /** launch_def_missile, lines 894-905 of launchers.c. */
  method LaunchDefender(env: Env, ghost w: World, t: nat)
    requires Holds(env, w) && Enabled(env.p, w, LaunchDef) && w.launcher == Found(t)
    modifies env.def
    ensures Holds(env, Next(env.p, w, LaunchDef))
  {
    StepInv(env.p, w, LaunchDef);
    env.InitDefMissile(t);
  }

  /** set_missile_trajectory with the computed column, line 840 of launchers.c. */
  method AimDefender(env: Env, ghost w: World, i: nat, x: int)
    requires Holds(env, w) && Enabled(env.p, w, Aim(i, x))
    modifies env.def
    ensures Holds(env, Next(env.p, w, Aim(i, x)))
  {
    StepInv(env.p, w, Aim(i, x));
    env.SetMissileTrajectory(i, x);
  }

  /** move_missile, lines 375-388 of launchers.c, with the new position as a parameter. */
  method MoveMissile(env: Env, ghost w: World, k: MissileType, i: nat, to: Pos)
    requires Holds(env, w) && Enabled(env.p, w, Move(k, i, to))
    modifies env.atk, env.def
    ensures Holds(env, Next(env.p, w, Move(k, i, to)))
  {
    StepInv(env.p, w, Move(k, i, to));
    var r := if k.ATTACKER? then env.atk[i] else env.def[i];
    env.WriteMissile(k, i, r.(pos := to));
  }

  /** update_missile_env in the movement loop, line 410 of launchers.c: it can always
      happen, and its result says whether the loop ends. */
  method UpdateMissile(env: Env, ghost w: World, k: MissileType, i: nat, from: Pos)
    returns (collided: bool, ghost hit: Option<Pos>)
    requires Holds(env, w) && i < env.p.n && w.Phases(k)[i].Moved? && from == w.Phases(k)[i].from
    modifies env`atkPoints, env`defPoints, env.cell, env.atk, env.def
    ensures Enabled(env.p, w, Update(k, i, hit)) && Holds(env, Next(env.p, w, Update(k, i, hit)))
    ensures collided <==> Next(env.p, w, Update(k, i, hit)).Phases(k)[i].Done?
  {
    assert SlotOk(env.p, k, i, w.mem.Queue(k)[i], w.Phases(k)[i]);
    collided, hit := env.UpdateMissileEnv(k, i, from);
    StepInv(env.p, w, Update(k, i, hit));
    UpdatedPhase(env.p, w, k, i, hit, k, i);
  }

  /** clear_missile, lines 358-363 of launchers.c: the index it splices back is its own. */
  method ClearRecord(env: Env, ghost w: World, k: MissileType, i: nat) returns (index: int)
    requires Holds(env, w) && Enabled(env.p, w, Clear(k, i))
    modifies env.atk, env.def
    ensures index == i && Holds(env, Next(env.p, w, Clear(k, i)))
  {
    assert SlotOk(env.p, k, i, w.mem.Queue(k)[i], w.Phases(k)[i]);
    StepInv(env.p, w, Clear(k, i));
    index := env.ClearMissile(k, i);
  }
}
