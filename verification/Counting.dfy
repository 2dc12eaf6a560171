/** Counting the elements of a sequence that satisfy a predicate, and summing a
    sequence of semaphore values. The protocols use it to relate a shared
    counter to the program counters of the threads. */
module Counting {

  ghost function Count<T>(s: seq<T>, f: T -> bool): (n: nat) {
    if s == [] then 0 else (if f(s[0]) then 1 else 0) + Count(s[1..], f)
  }

  /** Changing one element moves the count by that element alone. */
  lemma {:induction false} CountUpdate<T>(s: seq<T>, i: nat, x: T, f: T -> bool)
    requires i < |s|
    ensures Count(s[i := x], f) + (if f(s[i]) then 1 else 0)
         == Count(s, f) + (if f(x) then 1 else 0)
  {
    if i == 0 {
      assert s[i := x][1..] == s[1..];
    } else {
      assert s[i := x][1..] == s[1..][i - 1 := x];
      CountUpdate(s[1..], i - 1, x, f);
    }
  }

  /** The count is zero exactly when no element satisfies the predicate. */
  lemma {:induction false} CountZero<T>(s: seq<T>, f: T -> bool)
    ensures Count(s, f) == 0 <==> forall i | 0 <= i < |s| :: !f(s[i])
  {
    if s != [] {
      CountZero(s[1..], f);
      assert forall i | 0 <= i < |s[1..]| :: s[1..][i] == s[i + 1];
      assert forall i | 1 <= i < |s| :: s[i] == s[1..][i - 1];
    }
  }

  /** A positive count has a witness. */
  lemma CountWitness<T>(s: seq<T>, f: T -> bool) returns (i: nat)
    requires Count(s, f) > 0
    ensures i < |s| && f(s[i])
  {
    CountZero(s, f);
    i :| 0 <= i < |s| && f(s[i]);
  }

  /** A witness makes the count positive. */
  lemma CountPositive<T>(s: seq<T>, i: nat, f: T -> bool)
    requires i < |s| && f(s[i])
    ensures Count(s, f) >= 1
  {
    CountZero(s, f);
  }

  /** Two different witnesses make the count at least two. */
  lemma {:induction false} TwoWitnesses<T>(s: seq<T>, f: T -> bool, i: nat, j: nat)
    requires i < j < |s| && f(s[i]) && f(s[j])
    ensures Count(s, f) >= 2
  {
    if i == 0 {
      assert s[1..][j - 1] == s[j];
      CountZero(s[1..], f);
    } else {
      TwoWitnesses(s[1..], f, i - 1, j - 1);
    }
  }

  /** A count of at most one leaves room for one witness only. */
  lemma CountUnique<T>(s: seq<T>, f: T -> bool, i: nat, j: nat)
    requires i < |s| && j < |s| && f(s[i]) && f(s[j])
    requires Count(s, f) <= 1
    ensures i == j
  {
    if i < j {
      TwoWitnesses(s, f, i, j);
    } else if j < i {
      TwoWitnesses(s, f, j, i);
    }
  }

  ghost function Sum(s: seq<nat>): nat {
    if s == [] then 0 else s[0] + Sum(s[1..])
  }

  lemma {:induction false} SumUpdate(s: seq<nat>, i: nat, x: nat)
    requires i < |s|
    ensures Sum(s[i := x]) + s[i] == Sum(s) + x
  {
    if i == 0 {
      assert s[i := x][1..] == s[1..];
    } else {
      assert s[i := x][1..] == s[1..][i - 1 := x];
      SumUpdate(s[1..], i - 1, x);
    }
  }

  lemma {:induction false} SumZero(s: seq<nat>)
    ensures Sum(s) == 0 <==> forall i | 0 <= i < |s| :: s[i] == 0
  {
    if s != [] {
      SumZero(s[1..]);
      assert forall i | 1 <= i < |s| :: s[i] == s[1..][i - 1];
      assert forall i | 0 <= i < |s[1..]| :: s[1..][i] == s[i + 1];
    }
  }
}
