/** fifo_queue_gestor_t (launchers.c): one next[] array that holds a stack of
    free indices and a queue of pending ones. */
module IndexQueue {

  /** The value of NONE: the end of a chain. */
  const NONE := -1

  /** What the array stands for: the free stack, top first, and the pending
      queue, front first. */
  datatype Lists = Lists(free: seq<int>, pending: seq<int>) {
    /** An accepted launch moves the top free index to the back of the queue. */
    function Accept(): Lists
      requires free != []
    {
      Lists(free[1..], pending + [free[0]])
    }

    function TakeFree(): Lists
      requires free != []
    {
      Lists(free[1..], pending)
    }

    function TakePending(): Lists
      requires pending != []
    {
      Lists(free, pending[1..])
    }

    function Append(index: int): Lists {
      Lists(free, pending + [index])
    }

    function Splice(index: int): Lists {
      Lists([index] + free, pending)
    }

    /** No index is listed twice, and all are indices of an array of length n. */
    ghost predicate Distinct(n: nat) {
      && (forall i | 0 <= i < |free| :: 0 <= free[i] < n)
      && (forall i | 0 <= i < |pending| :: 0 <= pending[i] < n)
      && (forall i, j | 0 <= i < j < |free| :: free[i] != free[j])
      && (forall i, j | 0 <= i < j < |pending| :: pending[i] != pending[j])
      && (forall i, j | 0 <= i < |free| && 0 <= j < |pending| :: free[i] != pending[j])
    }
  }

  /** A popped index is in neither list any more, and the rest stays distinct. */
  lemma PoppedIsUnused(q: Lists, n: nat)
    requires q.Distinct(n) && q.free != []
    ensures q.TakeFree().Distinct(n)
    ensures 0 <= q.free[0] < n && q.free[0] !in q.TakeFree().free && q.free[0] !in q.TakeFree().pending
  {
    var rest := q.free[1..];
    assert forall i | 0 <= i < |rest| :: rest[i] == q.free[i + 1];
  }

  /** What follows position i of a list. */
  ghost function After(list: seq<int>, i: nat): int
    requires i < |list|
  {
    if i + 1 < |list| then list[i + 1] else NONE
  }

  /** The chain that starts at `first` runs through exactly `list` and ends in NONE. */
  ghost predicate Chain(next: seq<int>, first: int, list: seq<int>) {
    && first == (if list == [] then NONE else list[0])
    && forall i | 0 <= i < |list| ::
         0 <= list[i] < |next| && next[list[i]] == After(list, i)
  }

  /** The array determines the list: a chain stands for one list only. */
  lemma {:induction false} ChainUnique(next: seq<int>, first: int, a: seq<int>, b: seq<int>)
    requires Chain(next, first, a) && Chain(next, first, b)
    ensures a == b
    decreases |a|
  {
    if a != [] && b != [] {
      ChainTail(next, first, a);
      ChainTail(next, first, b);
      ChainUnique(next, next[first], a[1..], b[1..]);
      assert a == [first] + a[1..] && b == [first] + b[1..];
    }
  }

  lemma ChainTail(next: seq<int>, first: int, list: seq<int>)
    requires Chain(next, first, list) && list != []
    ensures Chain(next, next[first], list[1..])
  {
    assert list[0] == first;
    forall i | 0 <= i < |list[1..]|
      ensures 0 <= list[1..][i] < |next|
      ensures next[list[1..][i]] == After(list[1..], i)
    {
      assert next[list[i + 1]] == After(list, i + 1);
    }
  }

  lemma {:induction false} ChainSuffix(next: seq<int>, first: int, list: seq<int>, i: nat)
    requires Chain(next, first, list) && i < |list|
    ensures Chain(next, list[i], list[i..])
    decreases i
  {
    if i > 0 {
      ChainTail(next, first, list);
      ChainSuffix(next, next[first], list[1..], i - 1);
      assert list[1..][i - 1..] == list[i..];
    } else {
      assert list[0..] == list;
    }
  }

  /** A chain that ends in NONE is acyclic: it visits no index twice. */
  lemma ChainAcyclic(next: seq<int>, first: int, list: seq<int>, i: nat, j: nat)
    requires Chain(next, first, list) && i < j < |list|
    ensures list[i] != list[j]
  {
    if list[i] == list[j] {
      ChainSuffix(next, first, list, i);
      ChainSuffix(next, first, list, j);
      ChainUnique(next, list[i], list[i..], list[j..]);
    }
  }

  /** Writing an index outside the list leaves its chain alone. */
  lemma ChainFrame(next: seq<int>, first: int, list: seq<int>, index: int, v: int)
    requires Chain(next, first, list) && 0 <= index < |next| && index !in list
    ensures Chain(next[index := v], first, list)
  {
  }

  lemma AppendDistinct(q: Lists, n: nat, index: int)
    requires q.Distinct(n) && Unused(n, q, index)
    ensures q.Append(index).Distinct(n)
  {
  }

  lemma SpliceDistinct(q: Lists, n: nat, index: int)
    requires q.Distinct(n) && Unused(n, q, index)
    ensures q.Splice(index).Distinct(n)
  {
  }

  /** Linking a fresh index in front of a chain pushes it. */
  lemma ChainPush(next: seq<int>, first: int, list: seq<int>, index: int)
    requires Chain(next, first, list) && 0 <= index < |next| && next[index] == first
    ensures Chain(next, index, [index] + list)
  {
    var pushed := [index] + list;
    forall i | 0 <= i < |pushed|
      ensures 0 <= pushed[i] < |next|
      ensures next[pushed[i]] == After(pushed, i)
    {
      if i > 0 {
        assert next[list[i - 1]] == After(list, i - 1);
      }
    }
  }

  /** Linking a fresh index behind the last element appends it. */
  lemma ChainAppend(next: seq<int>, first: int, list: seq<int>, index: int)
    requires Chain(next, first, list) && 0 <= index < |next| && index !in list && list != []
    requires forall i, j | 0 <= i < j < |list| :: list[i] != list[j]
    ensures Chain(next[index := NONE][list[|list| - 1] := index], first, list + [index])
  {
  }

  /** next[] with freeIndex, headIndex and tailIndex, and what the program does to them. */
  datatype Links = Links(next: seq<int>, free: int, head: int, tail: int) {
    predicate InArray(i: int) {
      0 <= i < |next|
    }

    /** freeIndex = next[freeIndex] */
    function PopFree(): Links
      requires InArray(free)
    {
      this.(free := next[free])
    }

    /** headIndex = next[headIndex] */
    function PopHead(): Links
      requires InArray(head)
    {
      this.(head := next[head])
    }

    /** splice_index, lines 316-317. */
    function Push(index: int): Links
      requires InArray(index)
    {
      this.(next := next[index := free], free := index)
    }

    /** update_queue_head, lines 200-209. */
    function Append(index: int): Links
      requires InArray(index) && (head != NONE ==> InArray(tail))
    {
      if head == NONE then Links(next[index := NONE], free, index, index)
      else Links(next[index := NONE][tail := index], free, head, index)
    }

    /** Every access of an accepted launch is inside the array. */
    predicate CanAccept() {
      InArray(free) && (head != NONE ==> InArray(tail))
    }

    /** The top free index goes to the end of the pending list. */
    function Accept(): Links
      requires CanAccept()
    {
      PopFree().Append(free)
    }
  }

  /** Both chains run through next[] without a repetition and end in NONE, and
      tailIndex is the last pending index whenever headIndex is not NONE. */
  ghost predicate Represents(a: Links, lists: Lists) {
    && lists.Distinct(|a.next|)
    && Chain(a.next, a.free, lists.free)
    && Chain(a.next, a.head, lists.pending)
    && (a.head != NONE ==> a.tail == lists.pending[|lists.pending| - 1])
  }

  /** index is neither free nor pending. */
  ghost predicate Unused(n: nat, lists: Lists, index: int) {
    0 <= index < n && index !in lists.free && index !in lists.pending
  }

  /** The links determine the lists. */
  lemma LinksDetermineLists(a: Links, q: Lists, q': Lists)
    requires Represents(a, q) && Represents(a, q')
    ensures q == q'
  {
    ChainUnique(a.next, a.free, q.free, q'.free);
    ChainUnique(a.next, a.head, q.pending, q'.pending);
  }

  /** The two tests of the program: an index is NONE exactly when its list is empty. */
  lemma NoneMeansEmpty(a: Links, q: Lists)
    requires Represents(a, q)
    ensures a.free == NONE <==> q.free == []
    ensures a.head == NONE <==> q.pending == []
    ensures q.free != [] ==> a.free == q.free[0] && a.InArray(a.free)
    ensures q.pending != [] ==> a.head == q.pending[0] && a.InArray(a.head) && a.InArray(a.tail)
  {
  }

  /** Following the free chain by one link pops the stack. */
  lemma PopFreeRefines(a: Links, lists: Lists)
    requires Represents(a, lists) && a.free >= 0
    ensures lists.free != [] && a.free == lists.free[0] && a.InArray(a.free)
    ensures Represents(a.PopFree(), lists.TakeFree())
    ensures Unused(|a.next|, lists.TakeFree(), a.free)
  {
    PoppedIsUnused(lists, |a.next|);
    ChainTail(a.next, a.free, lists.free);
  }

  /** Following the pending chain by one link dequeues; a stale tail is harmless. */
  lemma PopHeadRefines(a: Links, lists: Lists)
    requires Represents(a, lists) && a.head >= 0
    ensures lists.pending != [] && a.head == lists.pending[0] && a.InArray(a.head)
    ensures Represents(a.PopHead(), lists.TakePending())
    ensures Unused(|a.next|, lists.TakePending(), a.head)
  {
    var rest := lists.pending[1..];
    assert forall i | 0 <= i < |rest| :: rest[i] == lists.pending[i + 1];
    ChainTail(a.next, a.head, lists.pending);
  }

  lemma SpliceRefines(a: Links, lists: Lists, index: int)
    requires Represents(a, lists) && Unused(|a.next|, lists, index)
    ensures Represents(a.Push(index), lists.Splice(index))
  {
    SpliceDistinct(lists, |a.next|, index);
    ChainFrame(a.next, a.free, lists.free, index, a.free);
    ChainFrame(a.next, a.head, lists.pending, index, a.free);
    ChainPush(a.next[index := a.free], a.free, lists.free, index);
  }

  /** Splicing an index and requesting one gives that index back. Only its own link
      has changed, and the lists are the same. */
  lemma SpliceThenTake(a: Links, lists: Lists, index: int)
    requires Represents(a, lists) && Unused(|a.next|, lists, index)
    ensures a.Push(index).free == index
    ensures a.Push(index).PopFree() == a.(next := a.next[index := a.free])
    ensures Represents(a.Push(index).PopFree(), lists)
  {
    ChainFrame(a.next, a.free, lists.free, index, a.free);
    ChainFrame(a.next, a.head, lists.pending, index, a.free);
  }

  /** Lines 200-209 with nothing pending. */
  lemma AppendFirst(a: Links, lists: Lists, index: int)
    requires Represents(a, lists) && Unused(|a.next|, lists, index) && a.head == NONE
    ensures Represents(a.Append(index), lists.Append(index))
  {
    AppendDistinct(lists, |a.next|, index);
    ChainFrame(a.next, a.free, lists.free, index, NONE);
    assert lists.pending + [index] == [index];
  }

  /** Lines 200-209 behind a pending index. */
  lemma AppendLast(a: Links, lists: Lists, index: int)
    requires Represents(a, lists) && Unused(|a.next|, lists, index) && a.head != NONE
    ensures a.InArray(a.tail) && Represents(a.Append(index), lists.Append(index))
  {
    AppendDistinct(lists, |a.next|, index);
    var last := lists.pending[|lists.pending| - 1];
    assert a.tail == last && last in lists.pending && last !in lists.free;
    ChainAppend(a.next, a.head, lists.pending, index);
    ChainFrame(a.next, a.free, lists.free, index, NONE);
    ChainFrame(a.next[index := NONE], a.free, lists.free, a.tail, index);
  }

  /** Both branches of update_queue_head append to the pending queue. */
  lemma AppendRefines(a: Links, lists: Lists, index: int)
    requires Represents(a, lists) && Unused(|a.next|, lists, index)
    ensures a.head != NONE ==> a.InArray(a.tail)
    ensures Represents(a.Append(index), lists.Append(index))
  {
    if a.head == NONE { AppendFirst(a, lists, index); } else { AppendLast(a, lists, index); }
  }

  /** The pending queue is first in, first out: two indices appended to an empty queue
      are popped in the order in which they were appended. */
  lemma FirstInFirstOut(a: Links, lists: Lists, i: int, j: int)
    requires Represents(a, lists) && a.head == NONE && i != j
    requires Unused(|a.next|, lists, i) && Unused(|a.next|, lists, j)
    ensures a.Append(i).InArray(a.Append(i).tail)
    ensures var b := a.Append(i).Append(j);
      && b.head == i && b.InArray(i) && b.PopHead().head == j && b.PopHead().InArray(j)
      && b.PopHead().PopHead().head == NONE
  {
  }

  /** An accepted launch: the top free index becomes the last pending one. */
  lemma AcceptRefines(a: Links, lists: Lists)
    requires Represents(a, lists) && lists.free != []
    ensures a.free >= 0 && a.CanAccept() && lists.free[0] >= 0
    ensures |a.Accept().next| == |a.next| && Represents(a.Accept(), lists.Accept())
  {
    PopFreeRefines(a, lists);
    AppendRefines(a.PopFree(), lists.TakeFree(), a.free);
  }

  /** All indices are free, in order. */
  function AllFree(n: nat): Lists {
    Lists(seq(n, i => i), [])
  }

  /** The chain built by init_queue lists all indices. */
  lemma InitRefines(next: seq<int>)
    requires |next| >= 1 && next[|next| - 1] == NONE
    requires forall j | 0 <= j < |next| - 1 :: next[j] == j + 1
    ensures Represents(Links(next, 0, NONE, NONE), AllFree(|next|))
  {
    var all := AllFree(|next|).free;
    forall i | 0 <= i < |all| ensures next[all[i]] == After(all, i) {
      assert all[i] == i;
    }
  }

  class Gestor {
    var freeIndex: int
    var headIndex: int
    var tailIndex: int
    const next: array<int>
    var readBlk: int
    var writeBlk: int
    // the lists the array stands for
    ghost var lists: Lists

    ghost function Memory(): Links
      reads this, next
    {
      Links(next[..], freeIndex, headIndex, tailIndex)
    }

    ghost predicate Valid()
      reads this, next
    {
      next.Length >= 1 && Represents(Memory(), lists)
    }

    /** init_queue: all indices are free, in order. */
    constructor (n: nat)
      requires n >= 1
      ensures Valid() && fresh(next) && next.Length == n
      ensures lists == AllFree(n)
      ensures readBlk == 0 && writeBlk == 0
    {
      freeIndex := 0;
      headIndex := NONE;
      tailIndex := NONE;
      readBlk := 0;
      writeBlk := 0;
      next := new int[n];
      lists := AllFree(n);
      new;
      var i := 0;
      while i < n - 1
        invariant 0 <= i <= n - 1
        invariant forall j | 0 <= j < i :: next[j] == j + 1
        modifies next
      {
        next[i] := i + 1;
        i := i + 1;
      }
      next[n - 1] := NONE;
      assert forall j | 0 <= j < n - 1 :: next[..][j] == j + 1;
      InitRefines(next[..]);
    }

    /** update_queue_head, lines 196-210; its assert is the first precondition. */
    method UpdateQueueHead(index: int)
      requires index >= 0 && readBlk > 0
      requires Valid() && Unused(next.Length, lists, index)
      modifies this`headIndex, this`tailIndex, this`lists, next
      ensures Valid()
      ensures old(Memory()).head != NONE ==> old(Memory()).InArray(old(Memory()).tail)
      ensures Memory() == old(Memory()).Append(index)
      ensures lists == old(lists).Append(index)
    {
      ghost var was := Memory();
      AppendRefines(was, lists, index);
      next[index] := NONE;
      if headIndex == NONE {
        headIndex := index;
      } else {
        next[tailIndex] := index;
      }
      tailIndex := index;
      lists := lists.Append(index);
      assert Memory() == was.Append(index);
    }

    /** The critical section of request_atk_launch, lines 226-236: a launch is
        accepted only for a blocked reader and with an index to give it. */
    method RequestAtkLaunch() returns (accepted: bool)
      requires Valid() && readBlk >= 0
      modifies this`freeIndex, this`headIndex, this`tailIndex, this`lists, next
      ensures Valid()
      ensures accepted <==> old(lists.free) != [] && readBlk > 0
      ensures accepted ==> old(Memory()).CanAccept()
      ensures Memory() == if accepted then old(Memory()).Accept() else old(Memory())
      ensures lists == if accepted then old(lists).Accept() else old(lists)
    {
      if freeIndex == NONE || readBlk == 0 {
        accepted := false;
      } else {
        var index := PopFree();
        UpdateQueueHead(index);
        accepted := true;
      }
    }

    /** index = freeIndex; freeIndex = next[freeIndex]: lines 232-233 and 266-267.
        The precondition is the assert of line 263. */
    method PopFree() returns (index: int)
      requires Valid() && freeIndex >= 0
      modifies this`freeIndex, this`lists
      ensures Valid() && Unused(next.Length, lists, index)
      ensures old(lists.free) != [] && index == old(lists.free[0])
      ensures index == old(freeIndex) && Memory() == old(Memory()).PopFree()
      ensures lists == old(lists).TakeFree()
    {
      PopFreeRefines(Memory(), lists);
      index := freeIndex;
      freeIndex := next[freeIndex];
      lists := lists.TakeFree();
    }

    /** The critical section of get_next_index, lines 297-298, under its assert. */
    method PopHead() returns (index: int)
      requires Valid() && headIndex >= 0
      modifies this`headIndex, this`lists
      ensures Valid() && Unused(next.Length, lists, index)
      ensures old(lists.pending) != [] && index == old(lists.pending[0])
      ensures index == old(headIndex) && Memory() == old(Memory()).PopHead()
      ensures lists == old(lists).TakePending()
    {
      PopHeadRefines(Memory(), lists);
      index := headIndex;
      headIndex := next[headIndex];
      lists := lists.TakePending();
    }

    /** splice_index, lines 311-327: push the index on the free stack and say
        whether the mutex goes to a blocked writer. */
    method SpliceIndex(index: int) returns (toWriter: bool)
      requires index >= 0
      requires Valid() && Unused(next.Length, lists, index)
      modifies this`freeIndex, this`lists, next
      ensures Valid()
      ensures Memory() == old(Memory()).Push(index)
      ensures lists == old(lists).Splice(index)
      ensures toWriter <==> writeBlk != 0
    {
      SpliceRefines(Memory(), lists, index);
      next[index] := freeIndex;
      freeIndex := index;
      lists := lists.Splice(index);
      toWriter := writeBlk != 0;
    }
  }
}
