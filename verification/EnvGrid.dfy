/** The functions of gestor.c that run between access_env and release_env, on the
    arrays they update in place. Each is proved to have the effect that the
    functions of Missiles give as values. */
module EnvGrid {
  import opened Options
  import opened Missiles

  /** The `cell` member and the score of env_t, with the two missile arrays. */
  class Env {
    const p: Params
    const cell: array2<Cell>
    const atk: array<Missile>
    const def: array<Missile>
    var atkPoints: int
    var defPoints: int

    /** The arrays have the declared sizes. */
    ghost predicate Shape() {
      && cell.Length0 == p.xwin && cell.Length1 == p.ywin
      && atk.Length == p.n && def.Length == p.n && atk != def
    }

    /** The contents of the shared memory. */
    ghost function Mem(): Memory
      requires Shape()
      reads this, cell, atk, def
    {
      Memory(map q | q in Grid(p) :: cell[q.x, q.y], atk[..], def[..], atkPoints, defPoints)
    }

    ghost predicate Valid()
      reads this, cell, atk, def
    {
      Shape() && WellFormed(p, Mem())
    }

    /** init_env with the missile arrays of init_launchers. */
    constructor (p: Params)
      requires Sound(p)
      ensures Valid() && this.p == p && fresh(cell) && fresh(atk) && fresh(def)
      ensures Mem().cell == map q | q in Grid(p) :: InitCell(p, q)
      ensures Mem().atkPoints == 0 && Mem().defPoints == 0
      ensures forall i | 0 <= i < p.n :: Mem().atk[i] == EMPTY_MISSILE && Mem().def[i] == EMPTY_MISSILE
    {
      this.p := p;
      cell := new Cell[p.xwin, p.ywin];
      atk := new Missile[p.n](_ => EMPTY_MISSILE);
      def := new Missile[p.n](_ => EMPTY_MISSILE);
      atkPoints := 0;
      defPoints := 0;
      new;
      InitCells();
    }

    /** init_env, lines 159-165. */
    method InitCells()
      requires Shape() && Sound(p)
      modifies cell
      ensures Mem() == old(Mem()).(cell := map q | q in Grid(p) :: InitCell(p, q))
    {
      for x := 0 to p.xwin
        invariant forall q | InBorders(p, q) && q.x < x :: cell[q.x, q.y] == InitCell(p, q)
      {
        for y := 0 to p.ywin
          invariant forall q | InBorders(p, q) && (q.x < x || (q.x == x && q.y < y)) :: cell[q.x, q.y] == InitCell(p, q)
        {
          cell[x, y] := InitCell(p, Pos(x, y));
        }
      }
    }

    /** One assignment through a cell pointer. */
    method WriteCell(x: int, y: int, c: Cell)
      requires Shape() && InBorders(p, Pos(x, y))
      modifies cell
      ensures Mem() == old(Mem()).(cell := old(Mem()).cell[Pos(x, y) := c])
      ensures cell[x, y] == c
    {
      ghost var before := Mem();
      cell[x, y] := c;
      assert Mem().cell == before.cell[Pos(x, y) := c] by {
        assert forall q | q in Grid(p) && q != Pos(x, y) :: q.x != x || q.y != y;
      }
    }

    /** delete_atk_missile and delete_def_missile (launchers.c, lines 571-577 and 955-961). */
    method DeleteMissile(k: MissileType, i: nat)
      requires Shape() && i < p.n
      modifies if k.ATTACKER? then atk else def
      ensures Mem() == Delete(old(Mem()), k, i)
    {
      if k.ATTACKER? {
        atk[i] := atk[i].(deleted := true);
      } else {
        def[i] := def[i].(deleted := true);
      }
    }

    /** handle_collision_by_cell_type, lines 410-431. */
    method HandleCollisionByCellType(x: int, y: int) returns (t: CellType)
      requires Valid() && InBorders(p, Pos(x, y))
      modifies cell, atk, def
      ensures Shape() && Mem() == DestroyCell(old(Mem()), Pos(x, y))
      ensures t == old(cell[x, y]).ctype
    {
      ghost var q := Pos(x, y);
      assert q in Mem().cell && Mem().cell[q] == cell[x, y];
      t := cell[x, y].ctype;
      if t == DEF_MISSILE {
        DeleteMissile(DEFENDER, cell[x, y].value);
        WriteCell(x, y, BLANK_CELL);
      } else if t == ATK_MISSILE {
        DeleteMissile(ATTACKER, cell[x, y].value);
        WriteCell(x, y, BLANK_CELL);
      }
    }

    /** handle_collision, lines 440-466. */
    method HandleCollision(k: MissileType, x: int, y: int) returns (ret: bool)
      requires Valid() && InBorders(p, Pos(x, y))
      modifies this`atkPoints, this`defPoints, cell, atk, def
      ensures Shape() && Pos(x, y) in old(Mem()).cell
      ensures Mem() == Collide(old(Mem()), k, Pos(x, y))
      ensures ret <==> old(cell[x, y]).ctype != EMPTY
    {
      assert Pos(x, y) in Mem().cell && Mem().cell[Pos(x, y)] == cell[x, y];
      var t := HandleCollisionByCellType(x, y);
      ret := false;
      if t != EMPTY {
        if (k == ATTACKER && t == DEF_MISSILE) || (k == DEFENDER && t == ATK_MISSILE) {
          defPoints := defPoints + 1;
        }
        if k == ATTACKER && t == GOAL {
          atkPoints := atkPoints + 1;
        }
        ret := true;
      }
    }

    /** collision_around, lines 478-504. */
    method CollisionAround(b: Box, k: MissileType, index: int) returns (ret: bool, ghost hit: Option<Pos>)
      requires Valid() && 0 <= b.xa && 0 <= b.ya && b.xb <= p.xwin && b.yb <= p.ywin
      modifies this`atkPoints, this`defPoints, cell, atk, def
      ensures Shape()
      ensures FirstHit(old(Mem()).cell, b, k, index, hit)
      ensures ret <==> hit.Some?
      ensures Mem() == if hit.Some? then Collide(old(Mem()), k, hit.value) else old(Mem())
    {
      ghost var m := Mem();
      ret, hit := false, None;
      var x := b.xa;
      while !ret && x < b.xb
        invariant b.xa <= x && Shape()
        invariant ret <==> hit.Some?
        invariant ret ==> FirstHit(m.cell, b, k, index, hit) && Mem() == Collide(m, k, hit.value)
        invariant !ret ==> Mem() == m
        invariant !ret ==> forall q | q in m.cell && InBox(b, q) && q.x < x :: !Offends(m.cell[q], k, index)
        decreases b.xb - x
      {
        var y := b.ya;
        while !ret && y < b.yb
          invariant b.ya <= y && Shape()
          invariant ret <==> hit.Some?
          invariant ret ==> FirstHit(m.cell, b, k, index, hit) && Mem() == Collide(m, k, hit.value)
          invariant !ret ==> Mem() == m
          invariant !ret ==> forall q | q in m.cell && InBox(b, q) && (q.x < x || (q.x == x && q.y < y)) ::
                      !Offends(m.cell[q], k, index)
          decreases b.yb - y
        {
          assert Pos(x, y) in m.cell && m.cell[Pos(x, y)] == cell[x, y];
          if (cell[x, y].value != index || cell[x, y].ctype != CellTypeOf(k)) && !IsEmpty(cell[x, y]) {
            ret := HandleCollision(k, x, y);
            hit := Some(Pos(x, y));
          }
          y := y + 1;
        }
        x := x + 1;
      }
    }

    /** handle_collisions_around_missile, lines 513-532. */
    method HandleCollisionsAroundMissile(r: Missile) returns (ret: bool, ghost hit: Option<Pos>)
      requires Valid()
      modifies this`atkPoints, this`defPoints, cell, atk, def
      ensures Shape()
      ensures if InBorders(p, r.pos) then FirstHit(old(Mem()).cell, BoxAround(p, r.pos), r.mtype, r.index, hit)
              else hit == None
      ensures ret <==> !InBorders(p, r.pos) || hit.Some?
      ensures Mem() == if hit.Some? then Collide(old(Mem()), r.mtype, hit.value) else old(Mem())
    {
      hit := None;
      ret := !InBorders(p, r.pos);
      if !ret {
        ret, hit := CollisionAround(BoxAround(p, r.pos), r.mtype, r.index);
      }
    }

    /** update_missile_position, lines 561-575. */
    method UpdateMissilePosition(k: MissileType, i: nat, from: Pos) returns (collided: bool, ghost hit: Option<Pos>)
      requires Valid() && i < p.n && InBorders(p, from)
      requires !Mem().Queue(k)[i].deleted
      modifies this`atkPoints, this`defPoints, cell, atk, def
      ensures Shape() && UpdateFinds(p, old(Mem()), k, i, from, hit)
      ensures collided <==> UpdateCollides(p, old(Mem()), k, i, hit)
      ensures Mem() == Updated(p, old(Mem()), k, i, from, hit)
    {
      var r := if k.ATTACKER? then atk[i] else def[i];
      ghost var m := Mem();
      WriteCell(from.x, from.y, BLANK_CELL);
      assert Mem() == Erase(m, from) && WellFormed(p, Mem());
      collided, hit := HandleCollisionsAroundMissile(r);
      if !collided {
        WriteCell(r.pos.x, r.pos.y, Cell(CellTypeOf(r.mtype), r.index, r.target));
      }
    }

    /** update_missile_env, lines 591-599: what runs while the environment is held. */
    method UpdateMissileEnv(k: MissileType, i: nat, from: Pos) returns (collided: bool, ghost hit: Option<Pos>)
      requires Valid() && i < p.n && InBorders(p, from)
      modifies this`atkPoints, this`defPoints, cell, atk, def
      ensures Shape() && UpdateFinds(p, old(Mem()), k, i, from, hit)
      ensures collided <==> UpdateCollides(p, old(Mem()), k, i, hit)
      ensures Mem() == Updated(p, old(Mem()), k, i, from, hit)
    {
      var deleted := if k.ATTACKER? then atk[i].deleted else def[i].deleted;
      if deleted {
        collided, hit := true, None;
      } else {
        collided, hit := UpdateMissilePosition(k, i, from);
      }
    }

    /** is_already_tracked (launchers.c, lines 601-617). */
    method IsAlreadyTracked(target: int) returns (ret: bool)
      requires Shape()
      ensures ret <==> Tracked(Mem(), target)
    {
      ret := false;
      if target >= 0 {
        for i := 0 to def.Length
          invariant ret <==> exists j :: 0 <= j < i && def[..][j].index == target
        {
          if def[i].index == target {
            assert def[..][i].index == target;
            ret := true;
          }
        }
      }
    }

    /** check_pixel, lines 648-662. */
    method CheckPixel(red: set<Pos>, x: int, y: int) returns (ret: bool)
      requires Shape() && InBorders(p, Pos(x, y))
      ensures ret <==> Candidate(Mem(), red, Pos(x, y))
    {
      assert Pos(x, y) in Mem().cell && Mem().cell[Pos(x, y)] == cell[x, y];
      ret := false;
      if Pos(x, y) in red && cell[x, y].value >= 0 {
        ret := IsAlreadyTracked(cell[x, y].target);
        ret := !ret;
      }
    }

    /** search_screen_for_target, lines 671-696. */
    method SearchScreenForTarget(red: set<Pos>, t: int) returns (ret: bool, ghost found: Option<Pos>)
      requires Valid()
      modifies cell, atk
      ensures Shape() && SearchFinds(old(Mem()), red, found)
      ensures ret <==> found.Some?
      ensures Mem() == Assigned(old(Mem()), found, t)
    {
      ghost var m := Mem();
      ret, found := false, None;
      var y := 0;
      while !ret && y < p.ywin
        invariant 0 <= y && Shape()
        invariant ret <==> found.Some?
        invariant ret ==> SearchFinds(m, red, found) && Mem() == Assigned(m, found, t)
        invariant !ret ==> Mem() == m
        invariant !ret ==> forall q | q in m.cell && q.y < y :: !Candidate(m, red, q)
        decreases p.ywin - y
      {
        var x := 0;
        while !ret && x < p.xwin
          invariant 0 <= x && Shape()
          invariant ret <==> found.Some?
          invariant ret ==> SearchFinds(m, red, found) && Mem() == Assigned(m, found, t)
          invariant !ret ==> Mem() == m
          invariant !ret ==> forall q | q in m.cell && (q.y < y || (q.y == y && q.x < x)) :: !Candidate(m, red, q)
          decreases p.xwin - x
        {
          var candidate := CheckPixel(red, x, y);
          if candidate {
            assert Pos(x, y) in m.cell && m.cell[Pos(x, y)] == cell[x, y];
            atk[cell[x, y].value] := atk[cell[x, y].value].(target := t);
            WriteCell(x, y, cell[x, y].(target := t));
            ret, found := true, Some(Pos(x, y));
          }
          x := x + 1;
        }
        y := y + 1;
      }
    }

    /** scan_env_for_target_pos, lines 613-639. */
    method ScanEnvForTargetPos(target: int) returns (r: Pos)
      requires Valid()
      ensures ScanFinds(Mem(), target, r)
    {
      r := Pos(NONE, NONE);
      var ret := false;
      var x := 0;
      while !ret && x < p.xwin
        invariant 0 <= x
        invariant ret ==> ScanFinds(Mem(), target, r)
        invariant !ret ==> r == Pos(NONE, NONE)
        invariant !ret ==> forall q | q in Mem().cell && q.x < x :: Mem().cell[q].target != target
        decreases p.xwin - x
      {
        var y := 0;
        while !ret && y < p.ywin
          invariant 0 <= y
          invariant ret ==> ScanFinds(Mem(), target, r)
          invariant !ret ==> r == Pos(NONE, NONE)
          invariant !ret ==> forall q | q in Mem().cell && (q.x < x || (q.x == x && q.y < y)) ::
                      Mem().cell[q].target != target
          decreases p.ywin - y
        {
          assert Pos(x, y) in Mem().cell && Mem().cell[Pos(x, y)] == cell[x, y];
          if cell[x, y].target == target {
            r := Pos(x, y);
            ret := true;
          }
          y := y + 1;
        }
        x := x + 1;
      }
    }

    // ----- record updates of launchers.c -----

    /** One assignment of a whole record. */
    method WriteMissile(k: MissileType, i: nat, r: Missile)
      requires Shape() && i < p.n
      modifies if k.ATTACKER? then atk else def
      ensures Mem() == old(Mem()).SetMissile(k, i, r)
    {
      if k.ATTACKER? { atk[i] := r; } else { def[i] := r; }
    }

    /** init_atk_missile with the random column as a parameter, lines 507-513. */
    method InitAtkMissile(i: nat, x: int)
      requires Shape() && i < p.n
      modifies atk
      ensures Mem() == old(Mem()).SetMissile(ATTACKER, i, NewAttacker(p, i, x))
    {
      var r := EMPTY_MISSILE.(index := i, mtype := ATTACKER);
      WriteMissile(ATTACKER, i, r.(pos := Pos(x, p.thick + p.span + 1)));
    }

    /** init_def_missile, lines 882-887. */
    method InitDefMissile(i: nat)
      requires Shape() && i < p.n
      modifies def
      ensures Mem() == old(Mem()).SetMissile(DEFENDER, i, NewDefender(i))
    {
      WriteMissile(DEFENDER, i, EMPTY_MISSILE.(index := i, mtype := DEFENDER));
    }

    /** set_missile_trajectory, lines 819-825. */
    method SetMissileTrajectory(i: nat, startX: int)
      requires Shape() && i < p.n
      modifies def
      ensures Mem() == old(Mem()).SetMissile(DEFENDER, i, old(def[i]).(pos := DefSpawn(p, startX)))
    {
      WriteMissile(DEFENDER, i, def[i].(pos := Pos(startX, p.goalY - p.span - 1)));
    }

    /** The record part of clear_missile, lines 360-361: the index to splice is read
        before the record is emptied. */
    method ClearMissile(k: MissileType, i: nat) returns (index: int)
      requires Shape() && i < p.n
      modifies if k.ATTACKER? then atk else def
      ensures index == old(Mem()).Queue(k)[i].index
      ensures Mem() == old(Mem()).SetMissile(k, i, Emptied(old(Mem()).Queue(k)[i]))
    {
      var r := if k.ATTACKER? then atk[i] else def[i];
      index := r.index;
      WriteMissile(k, i, EMPTY_MISSILE.(mtype := r.mtype));
    }
  }
}
