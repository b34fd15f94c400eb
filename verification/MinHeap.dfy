/** The array heap of muduo/base/MinHeap.h, instantiated as the timer queue uses it.

    The loops move a hole through the array instead of swapping entries; `StepUp`, `StepDown` and
    `Settle` say what one round of each and the final write do to the order. */
module MinHeaps {

  /** An expiration in microseconds and the address of a timer, compared as a pair.
      The default-constructed entry is (0, null). */
  datatype Entry = Entry(when: int, timer: nat)

  const NULL_ENTRY := Entry(0, 0)

  const INIT_SIZE := 16

  predicate Less(a: Entry, b: Entry) {
    a.when < b.when || (a.when == b.when && a.timer < b.timer)
  }

  /** C++ division truncates, so the parent of the root is the root. */
  function Parent(i: nat): nat {
    if i == 0 then 0 else (i - 1) / 2
  }

  function Left(i: nat): nat { 2 * i + 1 }

  function Right(i: nat): nat { 2 * i + 2 }

  predicate IsParent(p: nat, j: nat) {
    j > 0 && p == Parent(j)
  }

  ghost predicate HeapOrdered(s: seq<Entry>) {
    forall p, j :: 0 <= p < |s| && 0 <= j < |s| && IsParent(p, j) ==> !Less(s[j], s[p])
  }

  /** What `assertOrder` demands: every child is strictly greater than its parent. */
  ghost predicate StrictlyOrdered(s: seq<Entry>) {
    forall p, j :: 0 <= p < |s| && 0 <= j < |s| && IsParent(p, j) ==> Less(s[p], s[j])
  }

  ghost predicate Distinct(s: seq<Entry>) {
    forall i, j :: 0 <= i < j < |s| ==> s[i] != s[j]
  }

  /** Order away from a hole at `i`, and across it from its children to its parent. */
  ghost predicate OrderedAround(s: seq<Entry>, i: nat) {
    && (forall p, j :: 0 <= p < |s| && 0 <= j < |s| && IsParent(p, j) && j != i && p != i ==> !Less(s[j], s[p]))
    && (forall p, j :: 0 <= p < |s| && 0 <= j < |s| && IsParent(p, i) && IsParent(i, j) ==> !Less(s[j], s[p]))
  }

  /** `x` may go into the hole at `i` as far as the children of `i` are concerned. */
  ghost predicate BelowChildren(s: seq<Entry>, i: nat, x: Entry) {
    forall j :: 0 <= j < |s| && IsParent(i, j) ==> !Less(s[j], x)
  }

  /** `x` may go into the hole at `i` as far as the parent of `i` is concerned. */
  ghost predicate AboveParent(s: seq<Entry>, i: nat, x: Entry) {
    forall p :: 0 <= p < |s| && IsParent(p, i) ==> !Less(x, s[p])
  }

  /** The child of `i` that `pop` and `remove` promote in place of `x`, or -1. */
  function SmallerChild(s: seq<Entry>, i: nat, x: Entry): (c: int)
    ensures c == -1 || (c in {Left(i), Right(i)} && c < |s| && Less(s[c], x))
    ensures forall j :: 0 <= j < |s| && IsParent(i, j) ==>
              if c == -1 then !Less(s[j], x) else !Less(s[j], s[c])
  {
    var l := if Left(i) < |s| && Less(s[Left(i)], x) then Left(i) else -1;
    if Right(i) < |s| && Less(s[Right(i)], x) && !(l != -1 && Less(s[Left(i)], s[Right(i)])) then Right(i) else l
  }

  /** Filling a hole with a value and moving the hole there loses nothing. */
  lemma MoveHole(s: seq<Entry>, i: nat, c: nat, x: Entry)
    requires i < |s| && c < |s| && i != c
    ensures multiset(s[i := s[c]][c := x]) == multiset(s[i := x])
  {
    assert multiset(s[i := s[c]][c := x]) ==
           multiset(s) - multiset{s[i]} + multiset{s[c]} - multiset{s[c]} + multiset{x};
  }

  /** One round of the upward loop: the parent moves down into the hole. */
  lemma StepUp(s: seq<Entry>, i: nat, x: Entry)
    requires 0 < i < |s| && OrderedAround(s, i) && BelowChildren(s, i, x) && Less(x, s[Parent(i)])
    ensures OrderedAround(s[i := s[Parent(i)]], Parent(i)) && BelowChildren(s[i := s[Parent(i)]], Parent(i), x)
  {
    assert IsParent(Parent(i), i);
  }

  /** One round of the downward loop: the child that `pop` picks moves up into the hole. */
  lemma StepDown(s: seq<Entry>, i: nat, x: Entry)
    requires i < |s| && OrderedAround(s, i) && AboveParent(s, i, x) && SmallerChild(s, i, x) != -1
    ensures var c := SmallerChild(s, i, x);
            OrderedAround(s[i := s[c]], c) && AboveParent(s[i := s[c]], c, x)
  {
    assert IsParent(i, SmallerChild(s, i, x));
  }

  /** A value between its neighbours completes the heap. */
  lemma Settle(s: seq<Entry>, i: nat, x: Entry)
    requires i < |s| && OrderedAround(s, i) && BelowChildren(s, i, x) && AboveParent(s, i, x)
    ensures HeapOrdered(s[i := x])
  {
  }

  /** The root of a heap is a minimum. */
  lemma {:induction false} RootIsMinimum(s: seq<Entry>, i: nat)
    requires HeapOrdered(s) && i < |s|
    ensures !Less(s[i], s[0])
    decreases i
  {
    if i > 0 {
      assert IsParent(Parent(i), i);
      RootIsMinimum(s, Parent(i));
    }
  }

  /** A heap of distinct entries passes `assertOrder`. */
  lemma DistinctHeapIsStrict(s: seq<Entry>)
    requires HeapOrdered(s) && Distinct(s)
    ensures StrictlyOrdered(s)
  {
    forall p, j | 0 <= p < |s| && 0 <= j < |s| && IsParent(p, j) ensures Less(s[p], s[j]) {
      assert s[p] != s[j];
    }
  }

  /** With a null entry away from the root, `assertOrder` fails: nothing at or after the epoch is less than it. */
  lemma NullFailsOrder(s: seq<Entry>)
    requires NullInside(s) && forall e <- multiset(s) :: e.when >= 0
    ensures !StrictlyOrdered(s)
  {
    var p :| 0 < p < |s| && s[p] == NULL_ENTRY;
    assert IsParent(Parent(p), p) && s[Parent(p)] in multiset(s);
  }

  /** Removing at `i`: the hole left in a heap that lost its last slot. */
  lemma RemovalHole(s: seq<Entry>, i: nat)
    requires HeapOrdered(s) && i < |s| - 1
    ensures OrderedAround(s[..|s| - 1], i) && BelowChildren(s[..|s| - 1], i, s[i])
  {
    var t := s[..|s| - 1];
    forall p, j | 0 <= p < |t| && 0 <= j < |t| && IsParent(p, i) && IsParent(i, j) ensures !Less(t[j], t[p]) {
      assert !Less(s[i], s[p]) && !Less(s[j], s[i]);
    }
  }

  /** A slot added at the end of the live entries is a hole without children. */
  lemma NewSlot(live: seq<Entry>, s: seq<Entry>, x: Entry)
    requires |s| == |live| + 1 && s[..|live|] == live
    ensures HeapOrdered(live) ==> OrderedAround(s, |live|) && BelowChildren(s, |live|, x)
    ensures NullInside(live) ==> NullAround(s, |live|)
    ensures multiset(s[|live| := x]) == multiset(live) + multiset{x}
  {
    assert forall j :: 0 <= j < |live| ==> s[j] == live[j];
    assert s[|live| := x] == live + [x];
  }

  /** A push after which null entries have taken the place of others, the last one among them. */
  lemma Overwritten(live: seq<Entry>, data: seq<Entry>, after: seq<Entry>, x: Entry)
    requires |after| == |data| == |live| + 1 && multiset(data) == multiset(live) + multiset{x}
    requires after[|live|] == NULL_ENTRY
    requires forall j :: 0 <= j < |after| ==> after[j] == data[j] || after[j] == NULL_ENTRY
    ensures forall e <- multiset(after) :: e == x || e == NULL_ENTRY || e in multiset(live)
    ensures NullInside(live) || |live| > 0 ==> NullInside(after)
    ensures NULL_ENTRY !in live && x != NULL_ENTRY ==> multiset(after) != multiset(live) + multiset{x}
  {
    assert NULL_ENTRY in multiset(after);
    forall e <- multiset(after) ensures e == x || e == NULL_ENTRY || e in multiset(live) {
      var j :| 0 <= j < |after| && after[j] == e;
      assert data[j] in multiset(data);
    }
  }

  /** Dropping the last slot and writing its value over slot `i` removes exactly the entry at `i`. */
  lemma RemovalContents(s: seq<Entry>, i: nat)
    requires i < |s| - 1
    ensures multiset(s[..|s| - 1][i := s[|s| - 1]]) == multiset(s) - multiset{s[i]}
  {
    var n := |s| - 1;
    assert s == s[..n] + [s[n]];
    assert multiset(s) == multiset(s[..n]) + multiset{s[n]};
    assert multiset(s[..n][i := s[n]]) == multiset(s[..n]) - multiset{s[i]} + multiset{s[n]};
  }

  /** A null entry away from the root. */
  ghost predicate NullInside(s: seq<Entry>) {
    exists p :: 0 < p < |s| && s[p] == NULL_ENTRY
  }

  /** A null entry away from the root and from the hole at `i`. */
  ghost predicate NullAround(s: seq<Entry>, i: nat) {
    exists p :: 0 < p < |s| && p != i && s[p] == NULL_ENTRY
  }

  /** One round of the upward loop moves no null entry to the root. */
  lemma NullStaysInside(s: seq<Entry>, i: nat)
    requires 0 < i < |s| && NullAround(s, i)
    ensures NullAround(s[i := s[Parent(i)]], Parent(i))
  {
    var p :| 0 < p < |s| && p != i && s[p] == NULL_ENTRY;
    var t := s[i := s[Parent(i)]];
    assert if p == Parent(i) then t[i] == NULL_ENTRY else t[p] == NULL_ENTRY;
  }

  /** The loop of `push`: move the hole at `k` towards the root until `x` fits, and put `x` there. */
  method Rise(s: seq<Entry>, k: nat, x: Entry) returns (data: seq<Entry>, i: nat)
    requires k < |s|
    ensures |data| == |s| && multiset(data) == multiset(s[k := x])
    ensures OrderedAround(s, k) && BelowChildren(s, k, x) ==> HeapOrdered(data)
    ensures NullAround(s, k) ==> NullInside(data)
    ensures i < |s| && data[i] == x
  {
    data, i := s, k;
    while i > 0 && Less(x, data[Parent(i)])
      invariant i < |data| == |s|
      invariant OrderedAround(s, k) && BelowChildren(s, k, x) ==> OrderedAround(data, i) && BelowChildren(data, i, x)
      invariant NullAround(s, k) ==> NullAround(data, i)
      invariant multiset(data[i := x]) == multiset(s[k := x])
      decreases i
    {
      if OrderedAround(data, i) && BelowChildren(data, i, x) {
        StepUp(data, i, x);
      }
      if NullAround(data, i) {
        NullStaysInside(data, i);
      }
      MoveHole(data, i, Parent(i), x);
      data := data[i := data[Parent(i)]];
      i := Parent(i);
    }
    if OrderedAround(data, i) && BelowChildren(data, i, x) {
      Settle(data, i, x);
    }
    if NullAround(data, i) {
      NullSettled(data, i, x);
    }
    data := data[i := x];
  }

  lemma NullSettled(s: seq<Entry>, i: nat, x: Entry)
    requires i < |s| && NullAround(s, i)
    ensures NullInside(s[i := x])
  {
    var p :| 0 < p < |s| && p != i && s[p] == NULL_ENTRY;
    assert s[i := x][p] == NULL_ENTRY;
  }

  /** The upward loop of `remove`, which does not look whether it has reached the root. */
  method RiseUnguarded(s: seq<Entry>, k: nat, x: Entry) returns (data: seq<Entry>)
    requires 0 < k < |s| && OrderedAround(s, k) && BelowChildren(s, k, x)
    requires !Less(x, s[0])
    ensures |data| == |s| && HeapOrdered(data) && multiset(data) == multiset(s[k := x])
  {
    data := s;
    var i := k;
    while Less(x, data[Parent(i)])
      invariant 0 < i < |data| == |s| && data[0] == s[0]
      invariant OrderedAround(data, i) && BelowChildren(data, i, x)
      invariant multiset(data[i := x]) == multiset(s[k := x])
      decreases i
    {
      StepUp(data, i, x);
      MoveHole(data, i, Parent(i), x);
      data := data[i := data[Parent(i)]];
      i := Parent(i);
    }
    Settle(data, i, x);
    data := data[i := x];
  }

  /** The comparisons of one round of the downward loop. */
  method PickChild(data: seq<Entry>, i: nat, x: Entry) returns (minIdx: int)
    requires i < |data|
    ensures minIdx == SmallerChild(data, i, x)
  {
    minIdx := -1;
    if Left(i) < |data| && Less(data[Left(i)], x) {
      minIdx := Left(i);
    }
    if Right(i) < |data| && Less(data[Right(i)], x) {
      if !(minIdx != -1 && Less(data[Left(i)], data[Right(i)])) {
        minIdx := Right(i);
      }
    }
  }

  /** The downward loop of `pop` and `remove`. */
  method Sink(s: seq<Entry>, k: nat, x: Entry) returns (data: seq<Entry>)
    requires k < |s| && OrderedAround(s, k) && AboveParent(s, k, x)
    ensures |data| == |s| && HeapOrdered(data) && multiset(data) == multiset(s[k := x])
  {
    data := s;
    var i := k;
    while true
      invariant i < |data| == |s| && OrderedAround(data, i) && AboveParent(data, i, x)
      invariant multiset(data[i := x]) == multiset(s[k := x])
      decreases |data| - i
    {
      var minIdx := PickChild(data, i, x);
      if minIdx == -1 {
        break;
      }
      StepDown(data, i, x);
      MoveHole(data, i, minIdx, x);
      data := data[i := data[minIdx]];
      i := minIdx;
    }
    Settle(data, i, x);
    data := data[i := x];
  }

  /** `pop` on a heap of at least two entries: the last entry sinks from the root. */
  method WithoutRoot(s: seq<Entry>) returns (data: seq<Entry>)
    requires HeapOrdered(s) && |s| > 1
    ensures |data| == |s| - 1 && HeapOrdered(data) && multiset(data) == multiset(s) - multiset{s[0]}
  {
    RemovalHole(s, 0);
    RemovalContents(s, 0);
    data := Sink(s[..|s| - 1], 0, s[|s| - 1]);
  }

  /** `remove` at any index but the last: the last entry rises or sinks from there. The upward loop ends
      before the root because no entry of a heap is less than the root. */
  method Without(s: seq<Entry>, k: nat) returns (data: seq<Entry>)
    requires HeapOrdered(s) && k < |s| - 1
    ensures |data| == |s| - 1 && HeapOrdered(data) && multiset(data) == multiset(s) - multiset{s[k]}
  {
    var x := s[|s| - 1];
    RemovalHole(s, k);
    RemovalContents(s, k);
    if Less(x, s[Parent(k)]) {
      RootIsMinimum(s, |s| - 1);
      assert IsParent(Parent(k), k);
      data := RiseUnguarded(s[..|s| - 1], k, x);
    } else {
      data := Sink(s[..|s| - 1], k, x);
    }
  }

  // ---------- The storage of a run ----------

  /** What decides whether pushes keep every entry: whether the vector fills its block, `capacity_`, and the
      length of the block. */
  datatype Store = Store(full: bool, capacity: nat, block: nat)

  /** `capacity_` after `n` pops from a heap of `size` entries. */
  function CapacityAfter(size: nat, n: nat, capacity: nat): nat {
    if n == 0 then capacity
    else
      var c := CapacityAfter(size, n - 1, capacity);
      if LeftOf(size, n) <= c / 2 then LeftOf(size, n) else c
  }

  function LeftOf(size: nat, n: nat): nat {
    if n <= size then size - n else 0
  }

  /** The first of a block's doublings that holds more than `size` entries. */
  function Grown(block: nat, size: nat): (b: nat)
    ensures b >= block && (block > 0 ==> b > size)
    decreases size - block
  {
    if block == 0 || size < block then block else Grown(2 * block, size)
  }

  /** The storage after `n` pops from a heap of `size` entries. */
  function PoppedStore(st: Store, size: nat, n: nat): Store {
    Store(st.full && (n == 0 || LeftOf(size, n) > st.capacity / 2), CapacityAfter(size, n, st.capacity), st.block)
  }

  /** Pushes up to `size` entries keep every entry. */
  predicate Fits(st: Store, size: nat) {
    st.full || size < st.block
  }

  /** The storage after pushes up to `size` entries. */
  function PushedStore(st: Store, size: nat): Store {
    st.(block := if st.full then Grown(st.block, size) else st.block)
  }

  lemma {:induction false} GrownTwice(block: nat, a: nat, b: nat)
    requires block > 0 && a <= b
    ensures Grown(Grown(block, a), b) == Grown(block, b)
    decreases b - block
  {
    if block <= a {
      GrownTwice(2 * block, a, b);
    }
  }

  /** From storage `st` to `st'` by pushes up to `size` entries; `intact` and `intact'` say whether no entry was
      lost before and after. */
  predicate PushedTo(intact: bool, st: Store, intact': bool, st': Store, size: nat) {
    && st.block > 0
    && (intact' <==> intact && Fits(st, size))
    && (intact' ==> st' == PushedStore(st, size))
  }

  /** Pushes after pushes are pushes. */
  lemma PushedOn(i0: bool, st0: Store, i1: bool, st1: Store, size1: nat, i2: bool, st2: Store, size2: nat)
    requires PushedTo(i0, st0, i1, st1, size1) && PushedTo(i1, st1, i2, st2, size2) && size1 <= size2
    ensures PushedTo(i0, st0, i2, st2, size2)
  {
    if st0.full {
      GrownTwice(st0.block, size1, size2);
    }
  }

  /** One push onto storage that has a free slot. */
  lemma OnePush(st: Store, size: nat)
    requires 0 < size <= st.block
    ensures Fits(st, size) ==>
              PushedStore(st, size) == st.(block := if size == st.block then 2 * size else st.block)
  {
    assert Grown(2 * size, size) == 2 * size;
  }

  class MinHeap {
    var mem: seq<Entry>   // the vector's memory block, as long as data_.capacity()
    var vsize: nat        // data_.size()
    var size: nat         // size_
    var capacity: nat     // capacity_

    /** The storage bookkeeping: the block always has a free slot, and `capacity_` never
        exceeds `data_.size()`, so that `shrink` only ever lowers it. */
    ghost predicate Stored()
      reads this
    {
      size < |mem| && capacity <= vsize <= |mem|
    }

    ghost predicate Valid()
      reads this
    {
      Stored() && HeapOrdered(Live())
    }

    ghost function Live(): seq<Entry>
      requires size <= |mem|
      reads this
    {
      mem[..size]
    }

    /** The vector is as long as its block, as it is until it shrinks. */
    predicate Full()
      reads this
    {
      vsize == |mem|
    }

    /** The guard under which `expand` does not reallocate a vector that `shrink` has left
        shorter than the live entries. */
    predicate Roomy()
      reads this
    {
      size + 1 < |mem| || Full()
    }

    function Storage(): Store
      reads this
    {
      Store(Full(), capacity, |mem|)
    }

    constructor (initSize: nat := INIT_SIZE)
      requires initSize > 0
      ensures Valid() && Live() == [] && |mem| == initSize == vsize == capacity
    {
      mem := seq(initSize, _ => NULL_ENTRY);
      vsize, size, capacity := initSize, 0, initSize;
    }

    /** Insert `x`. When the block has room the entries change by exactly `x`; when it has not, every
        live entry at or beyond `data_.size()` is overwritten by the null entry. A heap that holds a null
        entry away from its root keeps one there. */
    method Push(x: Entry) returns (i: nat)
      requires Stored()
      modifies this
      ensures Stored() && size == old(size) + 1 && capacity == old(capacity)
      ensures |mem| == if size == old(|mem|) then 2 * size else old(|mem|)
      ensures vsize == if size == old(|mem|) then 2 * size else old(vsize)
      ensures old(Roomy()) && old(HeapOrdered(Live())) ==> HeapOrdered(Live())
      ensures old(Roomy()) ==> multiset(Live()) == multiset(old(Live())) + multiset{x}
      ensures old(Roomy()) ==> i < size && Live()[i] == x
      ensures !old(Roomy()) ==> forall j :: old(vsize) <= j < size ==> Live()[j] == NULL_ENTRY
      ensures old(NullInside(Live())) || (!old(Roomy()) && size > 1) ==> NullInside(Live())
      ensures forall e <- multiset(Live()) :: e == x || e == NULL_ENTRY || e in multiset(old(Live()))
      ensures NULL_ENTRY !in old(Live()) && x != NULL_ENTRY ==>
                (old(Roomy()) <==> multiset(Live()) == multiset(old(Live())) + multiset{x})
    {
      ghost var live := Live();
      i := Place(x);
      ghost var data := Live();
      Expand();
      if old(Roomy()) {
        assert Live() == data;
      } else {
        Overwritten(live, data, Live(), x);
      }
    }

    /** `push` before it looks whether the block is full. */
    method Place(x: Entry) returns (i: nat)
      requires Stored()
      modifies this`mem, this`size
      ensures size == old(size) + 1 && |mem| == old(|mem|) && i < size && Live()[i] == x
      ensures old(HeapOrdered(Live())) ==> HeapOrdered(Live())
      ensures multiset(Live()) == multiset(old(Live())) + multiset{x}
      ensures old(NullInside(Live())) ==> NullInside(Live())
    {
      ghost var live := Live();
      i := size;
      size := size + 1;
      NewSlot(live, mem[..size], x);
      var data: seq<Entry>;
      data, i := Rise(mem[..size], i, x);
      mem := data + mem[size..];
      assert Live() == data;
    }

    predicate Empty()
      reads this
    {
      size == 0
    }

    function Top(): Entry
      requires Stored()
      reads this
    {
      mem[0]
    }

    /** Remove the root. With a single entry the loop does nothing and writes back the slot it read. */
    method Pop()
      requires Valid() && !Empty()
      modifies this
      ensures Valid() && size == old(size) - 1 && |mem| == old(|mem|)
      ensures multiset(Live()) == multiset(old(Live())) - multiset{old(Top())}
      ensures vsize == if size <= old(capacity) / 2 then size else old(vsize)
      ensures capacity == if size <= old(capacity) / 2 then size else old(capacity)
    {
      if size > 1 {
        var data := WithoutRoot(mem[..size]);
        size := size - 1;
        mem := data + mem[size..];
      } else {
        assert Live() == [Top()];
        size := 0;
      }
      Shrink();
    }

    /** Remove the entry at index `k`. The vector does not shrink when that is the last one. */
    method Remove(k: nat)
      requires Valid() && k < size
      modifies this
      ensures Valid() && size == old(size) - 1 && |mem| == old(|mem|)
      ensures multiset(Live()) == multiset(old(Live())) - multiset{old(Live())[k]}
      ensures vsize == if k < size <= old(capacity) / 2 then size else old(vsize)
      ensures capacity == if k < size <= old(capacity) / 2 then size else old(capacity)
    {
      if k == size - 1 {
        assert Live() == mem[..k] + [mem[k]];
        size := size - 1;
        return;
      }
      var data := Without(mem[..size], k);
      size := size - 1;
      mem := data + mem[size..];
      Shrink();
    }

    method Shrink()
      requires size < |mem| && capacity <= vsize <= |mem|
      modifies this
      ensures mem == old(mem) && size == old(size) && capacity <= vsize <= |mem|
      ensures vsize == if size <= old(capacity) / 2 then size else old(vsize)
      ensures capacity == if size <= old(capacity) / 2 then size else old(capacity)
    {
      if size <= capacity / 2 {
        Resize(size);
        capacity := size;
      }
    }

    method Expand()
      requires 0 < size <= |mem| && capacity <= vsize <= |mem|
      modifies this`mem, this`vsize
      ensures |mem| == if size == old(|mem|) then 2 * size else old(|mem|)
      ensures vsize == if size == old(|mem|) then 2 * size else old(vsize)
      ensures forall j :: 0 <= j < |mem| ==>
                mem[j] == if size == old(|mem|) && old(vsize) <= j then NULL_ENTRY else old(mem)[j]
    {
      if size == |mem| {
        Resize(2 * size);
      }
    }

    /** `std::vector::resize`: elements past the old size are value-initialised, and a block that is
        too small is replaced by one that takes over only the elements below the old size. */
    method Resize(n: nat)
      requires vsize <= |mem|
      modifies this`mem, this`vsize
      ensures vsize == n
      ensures n <= old(vsize) ==> mem == old(mem)
      ensures old(vsize) < n <= old(|mem|) ==> mem == old(mem)[..old(vsize)] + Nulls(n - old(vsize)) + old(mem)[n..]
      ensures old(|mem|) < n ==>
                mem == old(mem)[..old(vsize)]
                       + Nulls(if n - old(vsize) < old(vsize) then old(vsize) else n - old(vsize))
    {
      if n <= vsize {
      } else if n <= |mem| {
        mem := mem[..vsize] + Nulls(n - vsize) + mem[n..];
      } else {
        mem := mem[..vsize] + Nulls(if n - vsize < vsize then vsize else n - vsize);
      }
      vsize := n;
    }

    /** `assertOrder`: reports whether every assertion of its loop would hold. */
    method AssertOrder() returns (ok: bool)
      requires Stored()
      ensures ok <==> StrictlyOrdered(Live())
    {
      ok := true;
      for i := 0 to size
        invariant ok <==> forall p, j :: 0 <= p < i && 0 <= j < size && IsParent(p, j) ==> Less(mem[p], mem[j])
      {
        assert IsParent(i, Left(i)) && IsParent(i, Right(i));
        if Left(i) < size && !Less(mem[i], mem[Left(i)]) {
          ok := false;
        }
        if Right(i) < size && !Less(mem[i], mem[Right(i)]) {
          ok := false;
        }
      }
    }
  }

  function Nulls(n: nat): seq<Entry> {
    seq(n, _ => NULL_ENTRY)
  }

  /** The loss `Push` admits does happen: one push and one pop shrink the vector to nothing, and the
      sixteenth of the pushes that follow overwrites every live entry. */
  method ShrinkThenFill() returns (h: MinHeap)
    ensures h.size == INIT_SIZE && h.size <= |h.mem|
    ensures forall j :: 0 <= j < h.size ==> h.Live()[j] == NULL_ENTRY
  {
    h := new MinHeap();
    var i := h.Push(Entry(1, 1));
    h.Pop();
    for k := 0 to INIT_SIZE - 1
      invariant fresh(h) && h.Valid() && h.size == k && h.vsize == 0 && |h.mem| == INIT_SIZE
    {
      i := h.Push(Entry(k, k + 1));
    }
    i := h.Push(Entry(INIT_SIZE, INIT_SIZE));
  }

  method Fill(xs: seq<Entry>) returns (h: MinHeap)
    ensures fresh(h) && h.Valid() && multiset(h.Live()) == multiset(xs)
  {
    h := new MinHeap();
    for k := 0 to |xs|
      invariant fresh(h) && h.Valid() && h.Full() && multiset(h.Live()) == multiset(xs[..k])
    {
      var i := h.Push(xs[k]);
      assert xs[..k + 1] == xs[..k] + [xs[k]];
    }
    assert xs[..|xs|] == xs;
  }

  ghost predicate InOrder(s: seq<Entry>) {
    forall i, j :: 0 <= i < j < |s| ==> !Less(s[j], s[i])
  }

  method Drain(h: MinHeap) returns (out: seq<Entry>)
    requires h.Valid()
    modifies h
    ensures InOrder(out) && multiset(out) == multiset(old(h.Live()))
  {
    out := [];
    while !h.Empty()
      invariant h.Valid() && multiset(out) + multiset(h.Live()) == multiset(old(h.Live()))
      invariant InOrder(out) && forall o, e :: o in out && e in multiset(h.Live()) ==> !Less(e, o)
      decreases h.size
    {
      TopBelow(h.Live());
      out := out + [h.Top()];
      h.Pop();
    }
    assert h.Live() == [];
  }

  /** Any number of pushes into a new heap loses nothing, however often the block grows, and popping them
      all delivers the entries in order. */
  method FillThenDrain(xs: seq<Entry>) returns (out: seq<Entry>)
    ensures InOrder(out) && multiset(out) == multiset(xs)
  {
    var h := Fill(xs);
    out := Drain(h);
  }

  lemma TopBelow(s: seq<Entry>)
    requires HeapOrdered(s) && s != []
    ensures s[0] in multiset(s) && forall e <- multiset(s) :: !Less(e, s[0])
  {
    forall e <- multiset(s) ensures !Less(e, s[0]) {
      var i :| 0 <= i < |s| && s[i] == e;
      RootIsMinimum(s, i);
    }
  }
}
