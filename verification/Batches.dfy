// Batch: large updates and creations in slices.

module Batches {
  function Slice<T>(l: seq<T>, offset: nat, size: nat): seq<T> {
    if offset >= |l| then [] else if offset + size <= |l| then l[offset..offset + size] else l[offset..]
  }

  function Repeat<T>(l: seq<T>, n: nat): seq<T> {
    if n == 0 then [] else Repeat(l, n - 1) + l
  }

  lemma MulLess(a: int, b: int, size: nat)
    ensures a * size < b * size ==> a < b
  {
    if a >= b {
      assert (a - b) * size >= 0;
      assert a * size == b * size + (a - b) * size;
    }
  }

  // `complete` after some passes
  predicate Passed(size: nat, passes: nat, complete: nat) {
    complete == passes * size
  }

  lemma NotStarted(size: nat)
    ensures Passed(size, 0, 0)
  {}

  lemma OneMorePass(size: nat, passes: nat, complete: nat)
    requires Passed(size, passes, complete)
    ensures Passed(size, passes + 1, complete + size)
  {
    assert (passes + 1) * size == passes * size + size;
  }

  // The pass that goes beyond the end is number total / size + 1.
  lemma PassesOver(total: nat, size: nat, passes: nat, complete: nat)
    requires size > 0 && passes > 0 && Passed(size, passes, complete)
    requires complete - size <= total < complete
    ensures passes == total / size + 1
  {
    var q := total / size;
    assert (passes - 1) * size == passes * size - size;
    assert q * size <= total < (q + 1) * size;
    MulLess(q, passes, size);
    MulLess(passes - 1, q + 1, size);
  }

  class Batch<T> {
    const size: nat
    // what has been written so far, in order
    var written: seq<T>

    constructor (size: nat)
      ensures this.size == size && written == []
    {
      this.size, written := size, [];
    }

    // batched_update over a list. With `reduces` off every item is written
    // exactly once and in order. With it on, as is the default, the offset stays
    // at the start, and a list does not shrink: every pass writes the first slice
    // again. That is right exactly when the list is shorter than a batch.
    method UpdateList(l: seq<T>, reduces: bool) returns (passes: nat)
      requires size > 0
      modifies this
      ensures passes == |l| / size + 1
      ensures !reduces ==> written == old(written) + l
      ensures reduces ==> written == old(written) + Repeat(Slice(l, 0, size), |l| / size + 1)
      ensures written == old(written) + l <==> !reduces || |l| < size
    {
      hide Slice, Repeat, Done, Passed;
      var complete, offset, total := 0, 0, |l|;
      var step := if reduces then 0 else size;
      passes := 0;
      NotStarted(size);
      NothingDone(l, size, reduces);
      while true
        invariant Passed(size, passes, complete) && complete <= total
        invariant offset == if reduces then 0 else complete
        invariant written == old(written) + Done(l, size, reduces, passes)
        invariant l == [] ==> passes == 0 && complete == 0
        decreases total - complete
      {
        var toUpdate := Slice(l, offset, size);
        EmptySlice(l, offset, size);
        OneMoreDone(l, size, reduces, passes, complete);
        OneMorePass(size, passes, complete);
        complete, passes := complete + size, passes + 1;
        if toUpdate == [] {
          PassesOver(total, size, passes, complete);
          assert written + [] == written;
          break;
        }
        written := written + toUpdate;
        if complete > total {
          PassesOver(total, size, passes, complete);
          break;
        }
        offset := offset + step;
      }
      assert written == old(written) + Done(l, size, reduces, passes);
      AllDone(l, size, reduces, passes);
      SameTail(old(written), Done(l, size, reduces, passes), l);
    }
  }

  lemma SameTail<T>(head: seq<T>, a: seq<T>, b: seq<T>)
    ensures head + a == head + b <==> a == b
  {
    assert (head + a)[|head|..] == a && (head + b)[|head|..] == b;
  }

  // What is written after some passes over a list
  function Done<T>(l: seq<T>, size: nat, reduces: bool, passes: nat): seq<T> {
    if reduces then Repeat(Slice(l, 0, size), passes)
    else if passes * size <= |l| then l[..passes * size]
    else l
  }

  lemma EmptySlice<T>(l: seq<T>, offset: nat, size: nat)
    requires size > 0
    ensures Slice(l, offset, size) == [] <==> offset >= |l|
  {}

  lemma NothingDone<T>(l: seq<T>, size: nat, reduces: bool)
    ensures Done(l, size, reduces, 0) == []
  {}

  lemma OneMoreDone<T>(l: seq<T>, size: nat, reduces: bool, passes: nat, complete: nat)
    requires Passed(size, passes, complete) && complete <= |l|
    ensures Done(l, size, reduces, passes + 1)
            == Done(l, size, reduces, passes) + Slice(l, if reduces then 0 else complete, size)
  {
    OneMorePass(size, passes, complete);
    if !reduces && (passes + 1) * size > |l| {
      assert l == l[..passes * size] + l[passes * size..];
    }
  }

  lemma AllDone<T>(l: seq<T>, size: nat, reduces: bool, passes: nat)
    requires size > 0 && passes == |l| / size + 1
    ensures !reduces ==> Done(l, size, reduces, passes) == l
    ensures reduces ==> Done(l, size, reduces, passes) == Repeat(Slice(l, 0, size), |l| / size + 1)
    ensures Done(l, size, reduces, passes) == l <==> !reduces || |l| < size
  {
    PassesExceed(|l|, size);
    if reduces {
      RepeatLength(Slice(l, 0, size), passes);
      if |l| < size {
        OneRepeat(l);
        assert |l| / size == 0;
      } else {
        MoreThanAll(|l|, size);
      }
    }
  }

  lemma PassesExceed(total: nat, size: nat)
    requires size > 0
    ensures (total / size + 1) * size > total
  {
    assert (total / size + 1) * size == total / size * size + size;
    assert total == total / size * size + total % size;
  }

  lemma MoreThanAll(total: nat, size: nat)
    requires 0 < size <= total
    ensures size * (total / size + 1) > total
  {
    PassesExceed(total, size);
    assert size * (total / size + 1) == (total / size + 1) * size;
  }

  lemma {:induction false} RepeatLength<T>(l: seq<T>, n: nat)
    ensures |Repeat(l, n)| == |l| * n
  {
    if n > 0 {
      RepeatLength(l, n - 1);
      assert |l| * n == |l| * (n - 1) + |l|;
    }
  }

  lemma OneRepeat<T>(l: seq<T>)
    ensures Repeat(l, 1) == l
  {
    assert Repeat(l, 0) == [];
  }

  // A query whose rows drop out of it as they are written
  class Queue<T> {
    var items: seq<T>

    constructor (items: seq<T>)
      ensures this.items == items
    {
      this.items := items;
    }
  }

  // batched_update with `reduces` on, over such a query: again every item is
  // written exactly once, in order, in the same number of passes.
  method UpdateQueue<T>(b: Batch<T>, q: Queue<T>) returns (passes: nat)
    requires b.size > 0
    modifies b, q
    ensures b.written == old(b.written) + old(q.items) && q.items == []
    ensures passes == |old(q.items)| / b.size + 1
  {
    hide Passed;
    var complete, offset, total := 0, 0, |q.items|;
    ghost var all := q.items;
    passes := 0;
    NotStarted(b.size);
    while true
      invariant Passed(b.size, passes, complete) && complete <= total
      invariant q.items == all[complete..]
      invariant b.written == old(b.written) + all[..complete]
      decreases total - complete
    {
      var toUpdate := Slice(q.items, offset, b.size);
      ghost var done := complete;
      OneMorePass(b.size, passes, complete);
      complete, passes := complete + b.size, passes + 1;
      if toUpdate == [] {
        PassesOver(total, b.size, passes, complete);
        assert all[..done] == all;
        break;
      }
      assert all[..done] + toUpdate == if complete <= total then all[..complete] else all;
      b.written := b.written + toUpdate;
      q.items := q.items[|toUpdate|..];
      if complete > total {
        PassesOver(total, b.size, passes, complete);
        break;
      }
    }
  }
}
