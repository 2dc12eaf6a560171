/** The counters behind access_env and release_env (gestor.c): the blocked
    counters blk and the private semaphores, one of each per priority class,
    and the two scans that the lock runs over them. */
module EnvSemaphores {

  import opened Options

  /** Some class of priority 0..prio has a blocked thread. */
  ghost predicate AnyBlocked(blk: seq<int>, prio: int) {
    exists q :: 0 <= q <= prio && q < |blk| && blk[q] != 0
  }

  /** How many steps of the wake-up scan lead from class `from` to class `to`:
      1..classes, a full turn when the two are the same class. */
  function Dist(classes: nat, from: nat, to: nat): (d: nat)
    requires from < classes && to < classes
    ensures 1 <= d <= classes
    ensures d == classes <==> from == to
  {
    if to > from then to - from else to + classes - from
  }

  /** `next` is the class that the wake-up scan started at `prio` selects: it is
      blocked, and no class strictly nearer in the scan order is. */
  ghost predicate Selects(blk: seq<int>, prio: nat, next: Option<nat>)
    requires prio < |blk|
  {
    match next
    case None => forall q :: 0 <= q < |blk| ==> blk[q] == 0
    case Some(n) =>
      n < |blk| && blk[n] != 0 &&
      forall q :: 0 <= q < |blk| && Dist(|blk|, prio, q) < Dist(|blk|, prio, n) ==> blk[q] == 0
  }

  /** The scan order is a total order on classes. */
  lemma DistInjective(classes: nat, from: nat, a: nat, b: nat)
    requires from < classes && a < classes && b < classes
    ensures Dist(classes, from, a) == Dist(classes, from, b) <==> a == b
  {
  }

  /** Going from `g` to `w` by way of `n`, when `n` comes before `w`. */
  lemma DistSplit(classes: nat, g: nat, n: nat, w: nat)
    requires g < classes && n < classes && w < classes
    requires Dist(classes, g, n) < Dist(classes, g, w)
    ensures Dist(classes, g, n) + Dist(classes, n, w) == Dist(classes, g, w)
  {
  }

  /** At most one class is selected. */
  lemma SelectsUnique(blk: seq<int>, prio: nat, a: Option<nat>, b: Option<nat>)
    requires prio < |blk|
    requires Selects(blk, prio, a) && Selects(blk, prio, b)
    ensures a == b
  {
    if a.Some? && b.Some? {
      DistInjective(|blk|, prio, a.value, b.value);
    }
  }

  /** The class the scan selects, found by walking the scan order from distance d. */
  ghost function SelectFrom(blk: seq<int>, prio: nat, d: nat): (r: Option<nat>)
    requires prio < |blk| && 1 <= d <= |blk| + 1
    requires forall q :: 0 <= q < |blk| && Dist(|blk|, prio, q) < d ==> blk[q] == 0
    ensures Selects(blk, prio, r)
    decreases |blk| + 1 - d
  {
    if d == |blk| + 1 then
      assert forall q :: 0 <= q < |blk| ==> Dist(|blk|, prio, q) < d;
      None
    else
      var q := if prio + d < |blk| then prio + d else prio + d - |blk|;
      assert forall c :: 0 <= c < |blk| && Dist(|blk|, prio, c) == d ==> c == q;
      if blk[q] != 0 then Some(q) else SelectFrom(blk, prio, d + 1)
  }

  ghost function Select(blk: seq<int>, prio: nat): (r: Option<nat>)
    requires prio < |blk|
    ensures Selects(blk, prio, r)
  {
    SelectFrom(blk, prio, 1)
  }

  /** n is the first blocked class after prio, counting up and round from the last class
      to class 0; prio itself comes last. */
  ghost predicate FirstBlockedAfter(blk: seq<int>, prio: nat, n: nat) {
    && n < |blk| && blk[n] != 0
    && if n > prio then forall q | prio < q < n :: blk[q] == 0
       else (forall q | prio < q < |blk| :: blk[q] == 0) && (forall q | 0 <= q < n :: blk[q] == 0)
  }

  /** What is selected is the first blocked class after prio. */
  lemma SelectIsFirst(blk: seq<int>, prio: nat, n: nat)
    requires prio < |blk|
    ensures Select(blk, prio) == Some(n) <==> FirstBlockedAfter(blk, prio, n)
  {
    if FirstBlockedAfter(blk, prio, n) {
      SelectsUnique(blk, prio, Some(n), Select(blk, prio));
    }
  }

  /** The prio_sem array of env_t. */
  class PrioSems {
    const blk: array<int>
    const sem: array<nat>

    ghost predicate Valid() {
      blk != sem as object && blk.Length == sem.Length && blk.Length >= 1
    }

    /** init_env, lines 167-171. */
    constructor (classes: nat)
      requires classes >= 1
      ensures Valid() && fresh(blk) && fresh(sem)
      ensures blk.Length == classes
      ensures forall q | 0 <= q < classes :: blk[q] == 0 && sem[q] == 0
    {
      blk := new int[classes](_ => 0);
      sem := new nat[classes](_ => 0);
    }

    /** The scan of access_env, lines 337-340. The source ors the counters
        together and only tests the result against zero. */
    method LowerOrEqualBlocked(prio: nat) returns (lock: bool)
      requires Valid() && prio < blk.Length
      ensures lock <==> AnyBlocked(blk[..], prio)
      ensures lock <==> exists q :: 0 <= q <= prio && blk[..][q] != 0
    {
      lock := false;
      var p: int := prio;
      while p >= 0
        invariant -1 <= p <= prio
        invariant lock <==> exists q :: p < q <= prio && blk[..][q] != 0
      {
        if blk[p] != 0 {
          assert blk[..][p] != 0;
          lock := true;
        }
        p := p - 1;
      }
    }

    /** The wake-up scan of release_env, lines 366-378. */
    method WakeNext(prio: nat) returns (stop: bool, next: nat)
      requires Valid() && prio < blk.Length
      modifies sem
      ensures Valid()
      ensures next < blk.Length
      ensures Select(blk[..], prio) == if stop then Some(next) else None
      ensures if stop then FirstBlockedAfter(blk[..], prio, next) else forall q | 0 <= q < blk.Length :: blk[..][q] == 0
      ensures sem[..] == if stop then old(sem[..])[next := old(sem[next]) + 1] else old(sem[..])
    {
      stop := false;
      next := prio;
      ghost var d := 0;
      while true
        invariant next < blk.Length && 0 <= d <= blk.Length
        invariant !stop
        invariant next == if prio + d < blk.Length then prio + d else prio + d - blk.Length
        invariant forall q :: 0 <= q < blk.Length && Dist(blk.Length, prio, q) <= d ==> blk[q] == 0
        invariant d > 0 ==> next != prio || d == blk.Length
        invariant sem[..] == old(sem[..])
        invariant d < blk.Length
        decreases blk.Length - d
      {
        NextClass(next, blk.Length);
        next := (next + 1) % blk.Length;
        d := d + 1;
        assert forall q :: 0 <= q < blk.Length && Dist(blk.Length, prio, q) == d ==> q == next;
        if blk[next] != 0 {
          sem[next] := sem[next] + 1;
          stop := true;
          assert Selects(blk[..], prio, Some(next));
          SelectsUnique(blk[..], prio, Some(next), Select(blk[..], prio));
          SelectIsFirst(blk[..], prio, next);
          return;
        }
        if next == prio {
          break;
        }
      }
      assert Selects(blk[..], prio, None);
      SelectsUnique(blk[..], prio, None, Select(blk[..], prio));
    }
  }

  /** The modulo of the scan is a step to the next class, with wrap-around. */
  lemma NextClass(a: nat, classes: nat)
    requires a < classes
    ensures (a + 1) % classes == if a + 1 == classes then 0 else a + 1
  {
    if a + 1 < classes {
      assert (a + 1) / classes == 0;
    }
  }
}
