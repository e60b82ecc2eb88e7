/**
 * The reference strings of the command-line driver, worked through by the
 * three simulators: the string the driver runs on, and the commented-out
 * alternative that shows Belady's anomaly for FIFO.
 *
 * A trace is proved one reference at a time: each step lemma below extends
 * a known state by one reference, and each segment lemma applies one of
 * them at one position of the string. The reference string is handed to
 * the segments as a parameter described entry by entry, so that the
 * verifier evaluates only the step it is shown.
 */
module Scenarios {
  import opened Paging
  import Fifo
  import Lru
  import Opt

  /** The reference string the driver hands to all three simulators. */
  function Reference(): (s: seq<int>)
    ensures |s| == 20
  {
    [7, 0, 1, 2, 0, 3, 0, 4, 2, 3, 0, 3, 2, 1, 2, 0, 1, 7, 0, 1]
  }

  /** The commented-out alternative reference string of the driver. */
  function Anomaly(): (s: seq<int>)
    ensures |s| == 12
  {
    [1, 2, 3, 4, 1, 2, 5, 1, 2, 3, 4, 5]
  }

  /** `s` and `r` agree entry by entry. */
  ghost predicate Same<T>(s: seq<T>, r: seq<T>) {
    |s| == |r| && forall j :: 0 <= j < |s| ==> s[j] == r[j]
  }

  /** The entries of the driver's reference string, one by one. */
  ghost predicate IsReference(s: seq<int>) {
    && |s| == 20
    && s[0] == 7
    && s[1] == 0
    && s[2] == 1
    && s[3] == 2
    && s[4] == 0
    && s[5] == 3
    && s[6] == 0
    && s[7] == 4
    && s[8] == 2
    && s[9] == 3
    && s[10] == 0
    && s[11] == 3
    && s[12] == 2
    && s[13] == 1
    && s[14] == 2
    && s[15] == 0
    && s[16] == 1
    && s[17] == 7
    && s[18] == 0
    && s[19] == 1
  }

  /** The entries of the alternative reference string, one by one. */
  ghost predicate IsAnomaly(s: seq<int>) {
    && |s| == 12
    && s[0] == 1
    && s[1] == 2
    && s[2] == 3
    && s[3] == 4
    && s[4] == 1
    && s[5] == 2
    && s[6] == 5
    && s[7] == 1
    && s[8] == 2
    && s[9] == 3
    && s[10] == 4
    && s[11] == 5
  }

  /** A sequence that agrees with the reference string has its entries. */
  lemma ReferenceEntries(s: seq<int>)
    requires Same(s, Reference())
    ensures IsReference(s)
  {
  }

  /** A sequence that agrees with the alternative string has its entries. */
  lemma AnomalyEntries(s: seq<int>)
    requires Same(s, Anomaly())
    ensures IsAnomaly(s)
  {
  }

  /** One FIFO reference extends a known state. */
  lemma FifoNext<T>(size: int, pages: seq<T>, n: nat, page: T, before: Memory<T>, after: Memory<T>)
    requires size >= 1 && n < |pages| && pages[n] == page
    requires Fifo.Run(size, pages, n) == before
    requires Fifo.Step(size, before, page) == after
    ensures Fifo.Run(size, pages, n + 1) == after
  {
  }

  /** An LRU hit on the page in slot `i` moves it to the top of the stack. */
  lemma LruHit<T>(size: int, pages: seq<T>, n: nat, page: T, before: Memory<T>, i: nat, after: Memory<T>)
    requires size >= 1 && n < |pages| && pages[n] == page
    requires Lru.Run(size, pages, n) == before
    requires i < |before.frames| && before.frames[i] == page && page !in before.frames[..i]
    requires after == Memory([page] + before.frames[..i] + before.frames[i + 1..], before.faults)
    ensures Lru.Run(size, pages, n + 1) == after
  {
    assert IndexOf(before.frames, page) == i;
  }

  /** An LRU miss pushes the page, dropping the bottom of a full stack. */
  lemma LruMiss<T>(size: int, pages: seq<T>, n: nat, page: T, before: Memory<T>, after: Memory<T>)
    requires size >= 1 && n < |pages| && pages[n] == page
    requires Lru.Run(size, pages, n) == before
    requires page !in before.frames
    requires |before.frames| < size ==> after == Memory([page] + before.frames, before.faults + 1)
    requires |before.frames| >= size ==>
      after == Memory([page] + (before.frames[..size - 1] + before.frames[size..]), before.faults + 1)
    ensures Lru.Run(size, pages, n + 1) == after
  {
  }

  /** An OPT step that fills a free frame or hits does not look at the future. */
  lemma OptNext<T>(size: int, pages: seq<T>, n: nat, page: T, before: Memory<T>, after: Memory<T>)
    requires size >= 1 && n < |pages| && pages[n] == page
    requires Opt.Run(size, pages, n) == before
    requires page in before.frames || |before.frames| < size
    requires Opt.Step(size, before, page, []) == after
    ensures Opt.Run(size, pages, n + 1) == after
  {
  }

  /** An OPT step that evicts the page in slot `v`. */
  lemma OptEvict<T>(size: int, pages: seq<T>, n: nat, page: T, before: Memory<T>, v: nat, after: Memory<T>)
    requires size >= 1 && n < |pages| && pages[n] == page
    requires Opt.Run(size, pages, n) == before
    requires |before.frames| == size && NoDup(before.frames) && page !in before.frames
    requires v < size && Opt.Victim(before.frames, pages[n + 1..]) == v
    requires after == Memory(before.frames[v := page], before.faults + 1)
    ensures Opt.Run(size, pages, n + 1) == after
  {
    Opt.StepSpec(size, before, page, pages[n + 1..]);
  }

  /** After position `n`, page `x` is next referenced at position `k`. */
  lemma DistanceAt<T>(pages: seq<T>, n: nat, x: T, k: nat)
    requires n < k < |pages| && pages[k] == x
    requires forall j :: n < j < k ==> pages[j] != x
    ensures Opt.Distance(x, pages[n + 1..]) == k - n
  {
    var f := pages[n + 1..];
    forall j | 0 <= j < k - n - 1 ensures f[j] != x {
      assert f[j] == pages[n + 1 + j];
    }
    Opt.NextUseAt(x, f, k - n - 1);
  }

  /** After position `n`, page `x` is never referenced again. */
  lemma DistanceNever<T>(pages: seq<T>, n: nat, x: T)
    requires n < |pages|
    requires forall j :: n < j < |pages| ==> pages[j] != x
    ensures Opt.Distance(x, pages[n + 1..]) == |pages| - n
  {
    var f := pages[n + 1..];
    forall i | 0 <= i < |f| ensures f[i] != x {
      assert f[i] == pages[n + 1 + i];
    }
    Opt.DistanceSpec(x, f);
  }

  /** FIFO with three frames on the reference string: the state after 1 references. */
  lemma FifoReference1(s: seq<int>)
    requires |s| == 20 && s[0] == 7
    ensures Fifo.Run(3, s, 1) == Memory([7], 1)
  {
    FifoNext(3, s, 0, 7, Memory([], 0), Memory([7], 1));
  }

  /** FIFO with three frames on the reference string: the state after 2 references. */
  lemma FifoReference2(s: seq<int>)
    requires |s| == 20 && s[1] == 0
    requires Fifo.Run(3, s, 1) == Memory([7], 1)
    ensures Fifo.Run(3, s, 2) == Memory([7, 0], 2)
  {
    FifoNext(3, s, 1, 0, Memory([7], 1), Memory([7, 0], 2));
  }

  /** FIFO with three frames on the reference string: the state after 3 references. */
  lemma FifoReference3(s: seq<int>)
    requires |s| == 20 && s[2] == 1
    requires Fifo.Run(3, s, 2) == Memory([7, 0], 2)
    ensures Fifo.Run(3, s, 3) == Memory([7, 0, 1], 3)
  {
    FifoNext(3, s, 2, 1, Memory([7, 0], 2), Memory([7, 0, 1], 3));
  }

  /** FIFO with three frames on the reference string: the state after 4 references. */
  lemma FifoReference4(s: seq<int>)
    requires |s| == 20 && s[3] == 2
    requires Fifo.Run(3, s, 3) == Memory([7, 0, 1], 3)
    ensures Fifo.Run(3, s, 4) == Memory([0, 1, 2], 4)
  {
    FifoNext(3, s, 3, 2, Memory([7, 0, 1], 3), Memory([0, 1, 2], 4));
  }

  /** FIFO with three frames on the reference string: the state after 5 references. */
  lemma FifoReference5(s: seq<int>)
    requires |s| == 20 && s[4] == 0
    requires Fifo.Run(3, s, 4) == Memory([0, 1, 2], 4)
    ensures Fifo.Run(3, s, 5) == Memory([0, 1, 2], 4)
  {
    FifoNext(3, s, 4, 0, Memory([0, 1, 2], 4), Memory([0, 1, 2], 4));
  }

  /** FIFO with three frames on the reference string: the state after 6 references. */
  lemma FifoReference6(s: seq<int>)
    requires |s| == 20 && s[5] == 3
    requires Fifo.Run(3, s, 5) == Memory([0, 1, 2], 4)
    ensures Fifo.Run(3, s, 6) == Memory([1, 2, 3], 5)
  {
    FifoNext(3, s, 5, 3, Memory([0, 1, 2], 4), Memory([1, 2, 3], 5));
  }

  /** FIFO with three frames on the reference string: the state after 7 references. */
  lemma FifoReference7(s: seq<int>)
    requires |s| == 20 && s[6] == 0
    requires Fifo.Run(3, s, 6) == Memory([1, 2, 3], 5)
    ensures Fifo.Run(3, s, 7) == Memory([2, 3, 0], 6)
  {
    FifoNext(3, s, 6, 0, Memory([1, 2, 3], 5), Memory([2, 3, 0], 6));
  }

  /** FIFO with three frames on the reference string: the state after 8 references. */
  lemma FifoReference8(s: seq<int>)
    requires |s| == 20 && s[7] == 4
    requires Fifo.Run(3, s, 7) == Memory([2, 3, 0], 6)
    ensures Fifo.Run(3, s, 8) == Memory([3, 0, 4], 7)
  {
    FifoNext(3, s, 7, 4, Memory([2, 3, 0], 6), Memory([3, 0, 4], 7));
  }

  /** FIFO with three frames on the reference string: the state after 9 references. */
  lemma FifoReference9(s: seq<int>)
    requires |s| == 20 && s[8] == 2
    requires Fifo.Run(3, s, 8) == Memory([3, 0, 4], 7)
    ensures Fifo.Run(3, s, 9) == Memory([0, 4, 2], 8)
  {
    FifoNext(3, s, 8, 2, Memory([3, 0, 4], 7), Memory([0, 4, 2], 8));
  }

  /** FIFO with three frames on the reference string: the state after 10 references. */
  lemma FifoReference10(s: seq<int>)
    requires |s| == 20 && s[9] == 3
    requires Fifo.Run(3, s, 9) == Memory([0, 4, 2], 8)
    ensures Fifo.Run(3, s, 10) == Memory([4, 2, 3], 9)
  {
    FifoNext(3, s, 9, 3, Memory([0, 4, 2], 8), Memory([4, 2, 3], 9));
  }

  /** FIFO with three frames on the reference string: the state after 11 references. */
  lemma FifoReference11(s: seq<int>)
    requires |s| == 20 && s[10] == 0
    requires Fifo.Run(3, s, 10) == Memory([4, 2, 3], 9)
    ensures Fifo.Run(3, s, 11) == Memory([2, 3, 0], 10)
  {
    FifoNext(3, s, 10, 0, Memory([4, 2, 3], 9), Memory([2, 3, 0], 10));
  }

  /** FIFO with three frames on the reference string: the state after 12 references. */
  lemma FifoReference12(s: seq<int>)
    requires |s| == 20 && s[11] == 3
    requires Fifo.Run(3, s, 11) == Memory([2, 3, 0], 10)
    ensures Fifo.Run(3, s, 12) == Memory([2, 3, 0], 10)
  {
    FifoNext(3, s, 11, 3, Memory([2, 3, 0], 10), Memory([2, 3, 0], 10));
  }

  /** FIFO with three frames on the reference string: the state after 13 references. */
  lemma FifoReference13(s: seq<int>)
    requires |s| == 20 && s[12] == 2
    requires Fifo.Run(3, s, 12) == Memory([2, 3, 0], 10)
    ensures Fifo.Run(3, s, 13) == Memory([2, 3, 0], 10)
  {
    FifoNext(3, s, 12, 2, Memory([2, 3, 0], 10), Memory([2, 3, 0], 10));
  }

  /** FIFO with three frames on the reference string: the state after 14 references. */
  lemma FifoReference14(s: seq<int>)
    requires |s| == 20 && s[13] == 1
    requires Fifo.Run(3, s, 13) == Memory([2, 3, 0], 10)
    ensures Fifo.Run(3, s, 14) == Memory([3, 0, 1], 11)
  {
    FifoNext(3, s, 13, 1, Memory([2, 3, 0], 10), Memory([3, 0, 1], 11));
  }

  /** FIFO with three frames on the reference string: the state after 15 references. */
  lemma FifoReference15(s: seq<int>)
    requires |s| == 20 && s[14] == 2
    requires Fifo.Run(3, s, 14) == Memory([3, 0, 1], 11)
    ensures Fifo.Run(3, s, 15) == Memory([0, 1, 2], 12)
  {
    FifoNext(3, s, 14, 2, Memory([3, 0, 1], 11), Memory([0, 1, 2], 12));
  }

  /** FIFO with three frames on the reference string: the state after 16 references. */
  lemma FifoReference16(s: seq<int>)
    requires |s| == 20 && s[15] == 0
    requires Fifo.Run(3, s, 15) == Memory([0, 1, 2], 12)
    ensures Fifo.Run(3, s, 16) == Memory([0, 1, 2], 12)
  {
    FifoNext(3, s, 15, 0, Memory([0, 1, 2], 12), Memory([0, 1, 2], 12));
  }

  /** FIFO with three frames on the reference string: the state after 17 references. */
  lemma FifoReference17(s: seq<int>)
    requires |s| == 20 && s[16] == 1
    requires Fifo.Run(3, s, 16) == Memory([0, 1, 2], 12)
    ensures Fifo.Run(3, s, 17) == Memory([0, 1, 2], 12)
  {
    FifoNext(3, s, 16, 1, Memory([0, 1, 2], 12), Memory([0, 1, 2], 12));
  }

  /** FIFO with three frames on the reference string: the state after 18 references. */
  lemma FifoReference18(s: seq<int>)
    requires |s| == 20 && s[17] == 7
    requires Fifo.Run(3, s, 17) == Memory([0, 1, 2], 12)
    ensures Fifo.Run(3, s, 18) == Memory([1, 2, 7], 13)
  {
    FifoNext(3, s, 17, 7, Memory([0, 1, 2], 12), Memory([1, 2, 7], 13));
  }

  /** FIFO with three frames on the reference string: the state after 19 references. */
  lemma FifoReference19(s: seq<int>)
    requires |s| == 20 && s[18] == 0
    requires Fifo.Run(3, s, 18) == Memory([1, 2, 7], 13)
    ensures Fifo.Run(3, s, 19) == Memory([2, 7, 0], 14)
  {
    FifoNext(3, s, 18, 0, Memory([1, 2, 7], 13), Memory([2, 7, 0], 14));
  }

  /** FIFO with three frames on the reference string: the state after 20 references. */
  lemma FifoReference20(s: seq<int>)
    requires |s| == 20 && s[19] == 1
    requires Fifo.Run(3, s, 19) == Memory([2, 7, 0], 14)
    ensures Fifo.Run(3, s, 20) == Memory([7, 0, 1], 15)
  {
    FifoNext(3, s, 19, 1, Memory([2, 7, 0], 14), Memory([7, 0, 1], 15));
  }

  /** With three frames, FIFO misses 15 of the 20 references. */
  lemma FifoOnReference()
    ensures Fifo.Faults(3, Reference()) == 15
  {
    var s := Reference();
    ReferenceEntries(s);
    FifoReference1(s);
    FifoReference2(s);
    FifoReference3(s);
    FifoReference4(s);
    FifoReference5(s);
    FifoReference6(s);
    FifoReference7(s);
    FifoReference8(s);
    FifoReference9(s);
    FifoReference10(s);
    FifoReference11(s);
    FifoReference12(s);
    FifoReference13(s);
    FifoReference14(s);
    FifoReference15(s);
    FifoReference16(s);
    FifoReference17(s);
    FifoReference18(s);
    FifoReference19(s);
    FifoReference20(s);
  }

  /** LRU with three frames on the reference string: the state after 1 references. */
  lemma LruReference1(s: seq<int>)
    requires |s| == 20 && s[0] == 7
    ensures Lru.Run(3, s, 1) == Memory([7], 1)
  {
    LruMiss(3, s, 0, 7, Memory([], 0), Memory([7], 1));
  }

  /** LRU with three frames on the reference string: the state after 2 references. */
  lemma LruReference2(s: seq<int>)
    requires |s| == 20 && s[1] == 0
    requires Lru.Run(3, s, 1) == Memory([7], 1)
    ensures Lru.Run(3, s, 2) == Memory([0, 7], 2)
  {
    LruMiss(3, s, 1, 0, Memory([7], 1), Memory([0, 7], 2));
  }

  /** LRU with three frames on the reference string: the state after 3 references. */
  lemma LruReference3(s: seq<int>)
    requires |s| == 20 && s[2] == 1
    requires Lru.Run(3, s, 2) == Memory([0, 7], 2)
    ensures Lru.Run(3, s, 3) == Memory([1, 0, 7], 3)
  {
    LruMiss(3, s, 2, 1, Memory([0, 7], 2), Memory([1, 0, 7], 3));
  }

  /** LRU with three frames on the reference string: the state after 4 references. */
  lemma LruReference4(s: seq<int>)
    requires |s| == 20 && s[3] == 2
    requires Lru.Run(3, s, 3) == Memory([1, 0, 7], 3)
    ensures Lru.Run(3, s, 4) == Memory([2, 1, 0], 4)
  {
    LruMiss(3, s, 3, 2, Memory([1, 0, 7], 3), Memory([2, 1, 0], 4));
  }

  /** LRU with three frames on the reference string: the state after 5 references. */
  lemma LruReference5(s: seq<int>)
    requires |s| == 20 && s[4] == 0
    requires Lru.Run(3, s, 4) == Memory([2, 1, 0], 4)
    ensures Lru.Run(3, s, 5) == Memory([0, 2, 1], 4)
  {
    LruHit(3, s, 4, 0, Memory([2, 1, 0], 4), 2, Memory([0, 2, 1], 4));
  }

  /** LRU with three frames on the reference string: the state after 6 references. */
  lemma LruReference6(s: seq<int>)
    requires |s| == 20 && s[5] == 3
    requires Lru.Run(3, s, 5) == Memory([0, 2, 1], 4)
    ensures Lru.Run(3, s, 6) == Memory([3, 0, 2], 5)
  {
    LruMiss(3, s, 5, 3, Memory([0, 2, 1], 4), Memory([3, 0, 2], 5));
  }

  /** LRU with three frames on the reference string: the state after 7 references. */
  lemma LruReference7(s: seq<int>)
    requires |s| == 20 && s[6] == 0
    requires Lru.Run(3, s, 6) == Memory([3, 0, 2], 5)
    ensures Lru.Run(3, s, 7) == Memory([0, 3, 2], 5)
  {
    LruHit(3, s, 6, 0, Memory([3, 0, 2], 5), 1, Memory([0, 3, 2], 5));
  }

  /** LRU with three frames on the reference string: the state after 8 references. */
  lemma LruReference8(s: seq<int>)
    requires |s| == 20 && s[7] == 4
    requires Lru.Run(3, s, 7) == Memory([0, 3, 2], 5)
    ensures Lru.Run(3, s, 8) == Memory([4, 0, 3], 6)
  {
    LruMiss(3, s, 7, 4, Memory([0, 3, 2], 5), Memory([4, 0, 3], 6));
  }

  /** LRU with three frames on the reference string: the state after 9 references. */
  lemma LruReference9(s: seq<int>)
    requires |s| == 20 && s[8] == 2
    requires Lru.Run(3, s, 8) == Memory([4, 0, 3], 6)
    ensures Lru.Run(3, s, 9) == Memory([2, 4, 0], 7)
  {
    LruMiss(3, s, 8, 2, Memory([4, 0, 3], 6), Memory([2, 4, 0], 7));
  }

  /** LRU with three frames on the reference string: the state after 10 references. */
  lemma LruReference10(s: seq<int>)
    requires |s| == 20 && s[9] == 3
    requires Lru.Run(3, s, 9) == Memory([2, 4, 0], 7)
    ensures Lru.Run(3, s, 10) == Memory([3, 2, 4], 8)
  {
    LruMiss(3, s, 9, 3, Memory([2, 4, 0], 7), Memory([3, 2, 4], 8));
  }

  /** LRU with three frames on the reference string: the state after 11 references. */
  lemma LruReference11(s: seq<int>)
    requires |s| == 20 && s[10] == 0
    requires Lru.Run(3, s, 10) == Memory([3, 2, 4], 8)
    ensures Lru.Run(3, s, 11) == Memory([0, 3, 2], 9)
  {
    LruMiss(3, s, 10, 0, Memory([3, 2, 4], 8), Memory([0, 3, 2], 9));
  }

  /** LRU with three frames on the reference string: the state after 12 references. */
  lemma LruReference12(s: seq<int>)
    requires |s| == 20 && s[11] == 3
    requires Lru.Run(3, s, 11) == Memory([0, 3, 2], 9)
    ensures Lru.Run(3, s, 12) == Memory([3, 0, 2], 9)
  {
    LruHit(3, s, 11, 3, Memory([0, 3, 2], 9), 1, Memory([3, 0, 2], 9));
  }

  /** LRU with three frames on the reference string: the state after 13 references. */
  lemma LruReference13(s: seq<int>)
    requires |s| == 20 && s[12] == 2
    requires Lru.Run(3, s, 12) == Memory([3, 0, 2], 9)
    ensures Lru.Run(3, s, 13) == Memory([2, 3, 0], 9)
  {
    LruHit(3, s, 12, 2, Memory([3, 0, 2], 9), 2, Memory([2, 3, 0], 9));
  }

  /** LRU with three frames on the reference string: the state after 14 references. */
  lemma LruReference14(s: seq<int>)
    requires |s| == 20 && s[13] == 1
    requires Lru.Run(3, s, 13) == Memory([2, 3, 0], 9)
    ensures Lru.Run(3, s, 14) == Memory([1, 2, 3], 10)
  {
    LruMiss(3, s, 13, 1, Memory([2, 3, 0], 9), Memory([1, 2, 3], 10));
  }

  /** LRU with three frames on the reference string: the state after 15 references. */
  lemma LruReference15(s: seq<int>)
    requires |s| == 20 && s[14] == 2
    requires Lru.Run(3, s, 14) == Memory([1, 2, 3], 10)
    ensures Lru.Run(3, s, 15) == Memory([2, 1, 3], 10)
  {
    LruHit(3, s, 14, 2, Memory([1, 2, 3], 10), 1, Memory([2, 1, 3], 10));
  }

  /** LRU with three frames on the reference string: the state after 16 references. */
  lemma LruReference16(s: seq<int>)
    requires |s| == 20 && s[15] == 0
    requires Lru.Run(3, s, 15) == Memory([2, 1, 3], 10)
    ensures Lru.Run(3, s, 16) == Memory([0, 2, 1], 11)
  {
    LruMiss(3, s, 15, 0, Memory([2, 1, 3], 10), Memory([0, 2, 1], 11));
  }

  /** LRU with three frames on the reference string: the state after 17 references. */
  lemma LruReference17(s: seq<int>)
    requires |s| == 20 && s[16] == 1
    requires Lru.Run(3, s, 16) == Memory([0, 2, 1], 11)
    ensures Lru.Run(3, s, 17) == Memory([1, 0, 2], 11)
  {
    LruHit(3, s, 16, 1, Memory([0, 2, 1], 11), 2, Memory([1, 0, 2], 11));
  }

  /** LRU with three frames on the reference string: the state after 18 references. */
  lemma LruReference18(s: seq<int>)
    requires |s| == 20 && s[17] == 7
    requires Lru.Run(3, s, 17) == Memory([1, 0, 2], 11)
    ensures Lru.Run(3, s, 18) == Memory([7, 1, 0], 12)
  {
    LruMiss(3, s, 17, 7, Memory([1, 0, 2], 11), Memory([7, 1, 0], 12));
  }

  /** LRU with three frames on the reference string: the state after 19 references. */
  lemma LruReference19(s: seq<int>)
    requires |s| == 20 && s[18] == 0
    requires Lru.Run(3, s, 18) == Memory([7, 1, 0], 12)
    ensures Lru.Run(3, s, 19) == Memory([0, 7, 1], 12)
  {
    LruHit(3, s, 18, 0, Memory([7, 1, 0], 12), 2, Memory([0, 7, 1], 12));
  }

  /** LRU with three frames on the reference string: the state after 20 references. */
  lemma LruReference20(s: seq<int>)
    requires |s| == 20 && s[19] == 1
    requires Lru.Run(3, s, 19) == Memory([0, 7, 1], 12)
    ensures Lru.Run(3, s, 20) == Memory([1, 0, 7], 12)
  {
    LruHit(3, s, 19, 1, Memory([0, 7, 1], 12), 2, Memory([1, 0, 7], 12));
  }

  /** With three frames, LRU misses 12 of the 20 references. */
  lemma LruOnReference()
    ensures Lru.Faults(3, Reference()) == 12
  {
    var s := Reference();
    ReferenceEntries(s);
    LruReference1(s);
    LruReference2(s);
    LruReference3(s);
    LruReference4(s);
    LruReference5(s);
    LruReference6(s);
    LruReference7(s);
    LruReference8(s);
    LruReference9(s);
    LruReference10(s);
    LruReference11(s);
    LruReference12(s);
    LruReference13(s);
    LruReference14(s);
    LruReference15(s);
    LruReference16(s);
    LruReference17(s);
    LruReference18(s);
    LruReference19(s);
    LruReference20(s);
  }

  /** The victims OPT picks at the references 4 and 6 of the reference string. */
  lemma OptReferenceVictims1(s: seq<int>)
    requires Same(s, Reference())
    ensures Opt.Victim([7, 0, 1], s[4..]) == 0
    ensures Opt.Victim([2, 0, 1], s[6..]) == 2
  {
    DistanceAt(s, 3, 7, 17);
    DistanceAt(s, 3, 0, 4);
    DistanceAt(s, 3, 1, 13);
    Opt.VictimUnique([7, 0, 1], s[4..], 0);
    DistanceAt(s, 5, 2, 8);
    DistanceAt(s, 5, 0, 6);
    DistanceAt(s, 5, 1, 13);
    Opt.VictimUnique([2, 0, 1], s[6..], 2);
  }

  /** The victims OPT picks at the references 8 and 11 of the reference string. */
  lemma OptReferenceVictims2(s: seq<int>)
    requires Same(s, Reference())
    ensures Opt.Victim([2, 0, 3], s[8..]) == 1
    ensures Opt.Victim([2, 4, 3], s[11..]) == 1
  {
    DistanceAt(s, 7, 2, 8);
    DistanceAt(s, 7, 0, 10);
    DistanceAt(s, 7, 3, 9);
    Opt.VictimUnique([2, 0, 3], s[8..], 1);
    DistanceAt(s, 10, 2, 12);
    DistanceNever(s, 10, 4);
    Opt.VictimUnique([2, 4, 3], s[11..], 1);
  }

  /** The victims OPT picks at the references 14 and 18 of the reference string. */
  lemma OptReferenceVictims3(s: seq<int>)
    requires Same(s, Reference())
    ensures Opt.Victim([2, 0, 3], s[14..]) == 2
    ensures Opt.Victim([2, 0, 1], s[18..]) == 0
  {
    DistanceAt(s, 13, 2, 14);
    DistanceAt(s, 13, 0, 15);
    DistanceNever(s, 13, 3);
    Opt.VictimUnique([2, 0, 3], s[14..], 2);
    DistanceNever(s, 17, 2);
    Opt.VictimUnique([2, 0, 1], s[18..], 0);
  }

  /** OPT with three frames on the reference string: the state after 1 references. */
  lemma OptReference1(s: seq<int>)
    requires |s| == 20 && s[0] == 7
    ensures Opt.Run(3, s, 1) == Memory([7], 1)
  {
    OptNext(3, s, 0, 7, Memory([], 0), Memory([7], 1));
  }

  /** OPT with three frames on the reference string: the state after 2 references. */
  lemma OptReference2(s: seq<int>)
    requires |s| == 20 && s[1] == 0
    requires Opt.Run(3, s, 1) == Memory([7], 1)
    ensures Opt.Run(3, s, 2) == Memory([7, 0], 2)
  {
    OptNext(3, s, 1, 0, Memory([7], 1), Memory([7, 0], 2));
  }

  /** OPT with three frames on the reference string: the state after 3 references. */
  lemma OptReference3(s: seq<int>)
    requires |s| == 20 && s[2] == 1
    requires Opt.Run(3, s, 2) == Memory([7, 0], 2)
    ensures Opt.Run(3, s, 3) == Memory([7, 0, 1], 3)
  {
    OptNext(3, s, 2, 1, Memory([7, 0], 2), Memory([7, 0, 1], 3));
  }

  /** OPT with three frames on the reference string: the state after 4 references. */
  lemma OptReference4(s: seq<int>)
    requires |s| == 20 && s[3] == 2
    requires Opt.Victim([7, 0, 1], s[4..]) == 0
    requires Opt.Run(3, s, 3) == Memory([7, 0, 1], 3)
    ensures Opt.Run(3, s, 4) == Memory([2, 0, 1], 4)
  {
    OptEvict(3, s, 3, 2, Memory([7, 0, 1], 3), 0, Memory([2, 0, 1], 4));
  }

  /** OPT with three frames on the reference string: the state after 5 references. */
  lemma OptReference5(s: seq<int>)
    requires |s| == 20 && s[4] == 0
    requires Opt.Run(3, s, 4) == Memory([2, 0, 1], 4)
    ensures Opt.Run(3, s, 5) == Memory([2, 0, 1], 4)
  {
    OptNext(3, s, 4, 0, Memory([2, 0, 1], 4), Memory([2, 0, 1], 4));
  }

  /** OPT with three frames on the reference string: the state after 6 references. */
  lemma OptReference6(s: seq<int>)
    requires |s| == 20 && s[5] == 3
    requires Opt.Victim([2, 0, 1], s[6..]) == 2
    requires Opt.Run(3, s, 5) == Memory([2, 0, 1], 4)
    ensures Opt.Run(3, s, 6) == Memory([2, 0, 3], 5)
  {
    OptEvict(3, s, 5, 3, Memory([2, 0, 1], 4), 2, Memory([2, 0, 3], 5));
  }

  /** OPT with three frames on the reference string: the state after 7 references. */
  lemma OptReference7(s: seq<int>)
    requires |s| == 20 && s[6] == 0
    requires Opt.Run(3, s, 6) == Memory([2, 0, 3], 5)
    ensures Opt.Run(3, s, 7) == Memory([2, 0, 3], 5)
  {
    OptNext(3, s, 6, 0, Memory([2, 0, 3], 5), Memory([2, 0, 3], 5));
  }

  /** OPT with three frames on the reference string: the state after 8 references. */
  lemma OptReference8(s: seq<int>)
    requires |s| == 20 && s[7] == 4
    requires Opt.Victim([2, 0, 3], s[8..]) == 1
    requires Opt.Run(3, s, 7) == Memory([2, 0, 3], 5)
    ensures Opt.Run(3, s, 8) == Memory([2, 4, 3], 6)
  {
    OptEvict(3, s, 7, 4, Memory([2, 0, 3], 5), 1, Memory([2, 4, 3], 6));
  }

  /** OPT with three frames on the reference string: the state after 9 references. */
  lemma OptReference9(s: seq<int>)
    requires |s| == 20 && s[8] == 2
    requires Opt.Run(3, s, 8) == Memory([2, 4, 3], 6)
    ensures Opt.Run(3, s, 9) == Memory([2, 4, 3], 6)
  {
    OptNext(3, s, 8, 2, Memory([2, 4, 3], 6), Memory([2, 4, 3], 6));
  }

  /** OPT with three frames on the reference string: the state after 10 references. */
  lemma OptReference10(s: seq<int>)
    requires |s| == 20 && s[9] == 3
    requires Opt.Run(3, s, 9) == Memory([2, 4, 3], 6)
    ensures Opt.Run(3, s, 10) == Memory([2, 4, 3], 6)
  {
    OptNext(3, s, 9, 3, Memory([2, 4, 3], 6), Memory([2, 4, 3], 6));
  }

  /** OPT with three frames on the reference string: the state after 11 references. */
  lemma OptReference11(s: seq<int>)
    requires |s| == 20 && s[10] == 0
    requires Opt.Victim([2, 4, 3], s[11..]) == 1
    requires Opt.Run(3, s, 10) == Memory([2, 4, 3], 6)
    ensures Opt.Run(3, s, 11) == Memory([2, 0, 3], 7)
  {
    OptEvict(3, s, 10, 0, Memory([2, 4, 3], 6), 1, Memory([2, 0, 3], 7));
  }

  /** OPT with three frames on the reference string: the state after 12 references. */
  lemma OptReference12(s: seq<int>)
    requires |s| == 20 && s[11] == 3
    requires Opt.Run(3, s, 11) == Memory([2, 0, 3], 7)
    ensures Opt.Run(3, s, 12) == Memory([2, 0, 3], 7)
  {
    OptNext(3, s, 11, 3, Memory([2, 0, 3], 7), Memory([2, 0, 3], 7));
  }

  /** OPT with three frames on the reference string: the state after 13 references. */
  lemma OptReference13(s: seq<int>)
    requires |s| == 20 && s[12] == 2
    requires Opt.Run(3, s, 12) == Memory([2, 0, 3], 7)
    ensures Opt.Run(3, s, 13) == Memory([2, 0, 3], 7)
  {
    OptNext(3, s, 12, 2, Memory([2, 0, 3], 7), Memory([2, 0, 3], 7));
  }

  /** OPT with three frames on the reference string: the state after 14 references. */
  lemma OptReference14(s: seq<int>)
    requires |s| == 20 && s[13] == 1
    requires Opt.Victim([2, 0, 3], s[14..]) == 2
    requires Opt.Run(3, s, 13) == Memory([2, 0, 3], 7)
    ensures Opt.Run(3, s, 14) == Memory([2, 0, 1], 8)
  {
    OptEvict(3, s, 13, 1, Memory([2, 0, 3], 7), 2, Memory([2, 0, 1], 8));
  }

  /** OPT with three frames on the reference string: the state after 15 references. */
  lemma OptReference15(s: seq<int>)
    requires |s| == 20 && s[14] == 2
    requires Opt.Run(3, s, 14) == Memory([2, 0, 1], 8)
    ensures Opt.Run(3, s, 15) == Memory([2, 0, 1], 8)
  {
    OptNext(3, s, 14, 2, Memory([2, 0, 1], 8), Memory([2, 0, 1], 8));
  }

  /** OPT with three frames on the reference string: the state after 16 references. */
  lemma OptReference16(s: seq<int>)
    requires |s| == 20 && s[15] == 0
    requires Opt.Run(3, s, 15) == Memory([2, 0, 1], 8)
    ensures Opt.Run(3, s, 16) == Memory([2, 0, 1], 8)
  {
    OptNext(3, s, 15, 0, Memory([2, 0, 1], 8), Memory([2, 0, 1], 8));
  }

  /** OPT with three frames on the reference string: the state after 17 references. */
  lemma OptReference17(s: seq<int>)
    requires |s| == 20 && s[16] == 1
    requires Opt.Run(3, s, 16) == Memory([2, 0, 1], 8)
    ensures Opt.Run(3, s, 17) == Memory([2, 0, 1], 8)
  {
    OptNext(3, s, 16, 1, Memory([2, 0, 1], 8), Memory([2, 0, 1], 8));
  }

  /** OPT with three frames on the reference string: the state after 18 references. */
  lemma OptReference18(s: seq<int>)
    requires |s| == 20 && s[17] == 7
    requires Opt.Victim([2, 0, 1], s[18..]) == 0
    requires Opt.Run(3, s, 17) == Memory([2, 0, 1], 8)
    ensures Opt.Run(3, s, 18) == Memory([7, 0, 1], 9)
  {
    OptEvict(3, s, 17, 7, Memory([2, 0, 1], 8), 0, Memory([7, 0, 1], 9));
  }

  /** OPT with three frames on the reference string: the state after 19 references. */
  lemma OptReference19(s: seq<int>)
    requires |s| == 20 && s[18] == 0
    requires Opt.Run(3, s, 18) == Memory([7, 0, 1], 9)
    ensures Opt.Run(3, s, 19) == Memory([7, 0, 1], 9)
  {
    OptNext(3, s, 18, 0, Memory([7, 0, 1], 9), Memory([7, 0, 1], 9));
  }

  /** OPT with three frames on the reference string: the state after 20 references. */
  lemma OptReference20(s: seq<int>)
    requires |s| == 20 && s[19] == 1
    requires Opt.Run(3, s, 19) == Memory([7, 0, 1], 9)
    ensures Opt.Run(3, s, 20) == Memory([7, 0, 1], 9)
  {
    OptNext(3, s, 19, 1, Memory([7, 0, 1], 9), Memory([7, 0, 1], 9));
  }

  /** The whole OPT trace, for a sequence that agrees with the reference string. */
  lemma OptTrace(s: seq<int>)
    requires Same(s, Reference())
    ensures Opt.Faults(3, s) == 9
  {
    ReferenceEntries(s);
    OptReferenceVictims1(s);
    OptReferenceVictims2(s);
    OptReferenceVictims3(s);
    OptReference1(s);
    OptReference2(s);
    OptReference3(s);
    OptReference4(s);
    OptReference5(s);
    OptReference6(s);
    OptReference7(s);
    OptReference8(s);
    OptReference9(s);
    OptReference10(s);
    OptReference11(s);
    OptReference12(s);
    OptReference13(s);
    OptReference14(s);
    OptReference15(s);
    OptReference16(s);
    OptReference17(s);
    OptReference18(s);
    OptReference19(s);
    OptReference20(s);
  }

  /** With three frames, OPT misses 9 of the 20 references. */
  lemma OptOnReference()
    ensures Opt.Faults(3, Reference()) == 9
  {
    OptTrace(Reference());
  }

  /** FIFO with three frames on the alternative string: the state after 1 references. */
  lemma FifoAnomalyThree1(s: seq<int>)
    requires |s| == 12 && s[0] == 1
    ensures Fifo.Run(3, s, 1) == Memory([1], 1)
  {
    FifoNext(3, s, 0, 1, Memory([], 0), Memory([1], 1));
  }

  /** FIFO with three frames on the alternative string: the state after 2 references. */
  lemma FifoAnomalyThree2(s: seq<int>)
    requires |s| == 12 && s[1] == 2
    requires Fifo.Run(3, s, 1) == Memory([1], 1)
    ensures Fifo.Run(3, s, 2) == Memory([1, 2], 2)
  {
    FifoNext(3, s, 1, 2, Memory([1], 1), Memory([1, 2], 2));
  }

  /** FIFO with three frames on the alternative string: the state after 3 references. */
  lemma FifoAnomalyThree3(s: seq<int>)
    requires |s| == 12 && s[2] == 3
    requires Fifo.Run(3, s, 2) == Memory([1, 2], 2)
    ensures Fifo.Run(3, s, 3) == Memory([1, 2, 3], 3)
  {
    FifoNext(3, s, 2, 3, Memory([1, 2], 2), Memory([1, 2, 3], 3));
  }

  /** FIFO with three frames on the alternative string: the state after 4 references. */
  lemma FifoAnomalyThree4(s: seq<int>)
    requires |s| == 12 && s[3] == 4
    requires Fifo.Run(3, s, 3) == Memory([1, 2, 3], 3)
    ensures Fifo.Run(3, s, 4) == Memory([2, 3, 4], 4)
  {
    FifoNext(3, s, 3, 4, Memory([1, 2, 3], 3), Memory([2, 3, 4], 4));
  }

  /** FIFO with three frames on the alternative string: the state after 5 references. */
  lemma FifoAnomalyThree5(s: seq<int>)
    requires |s| == 12 && s[4] == 1
    requires Fifo.Run(3, s, 4) == Memory([2, 3, 4], 4)
    ensures Fifo.Run(3, s, 5) == Memory([3, 4, 1], 5)
  {
    FifoNext(3, s, 4, 1, Memory([2, 3, 4], 4), Memory([3, 4, 1], 5));
  }

  /** FIFO with three frames on the alternative string: the state after 6 references. */
  lemma FifoAnomalyThree6(s: seq<int>)
    requires |s| == 12 && s[5] == 2
    requires Fifo.Run(3, s, 5) == Memory([3, 4, 1], 5)
    ensures Fifo.Run(3, s, 6) == Memory([4, 1, 2], 6)
  {
    FifoNext(3, s, 5, 2, Memory([3, 4, 1], 5), Memory([4, 1, 2], 6));
  }

  /** FIFO with three frames on the alternative string: the state after 7 references. */
  lemma FifoAnomalyThree7(s: seq<int>)
    requires |s| == 12 && s[6] == 5
    requires Fifo.Run(3, s, 6) == Memory([4, 1, 2], 6)
    ensures Fifo.Run(3, s, 7) == Memory([1, 2, 5], 7)
  {
    FifoNext(3, s, 6, 5, Memory([4, 1, 2], 6), Memory([1, 2, 5], 7));
  }

  /** FIFO with three frames on the alternative string: the state after 8 references. */
  lemma FifoAnomalyThree8(s: seq<int>)
    requires |s| == 12 && s[7] == 1
    requires Fifo.Run(3, s, 7) == Memory([1, 2, 5], 7)
    ensures Fifo.Run(3, s, 8) == Memory([1, 2, 5], 7)
  {
    FifoNext(3, s, 7, 1, Memory([1, 2, 5], 7), Memory([1, 2, 5], 7));
  }

  /** FIFO with three frames on the alternative string: the state after 9 references. */
  lemma FifoAnomalyThree9(s: seq<int>)
    requires |s| == 12 && s[8] == 2
    requires Fifo.Run(3, s, 8) == Memory([1, 2, 5], 7)
    ensures Fifo.Run(3, s, 9) == Memory([1, 2, 5], 7)
  {
    FifoNext(3, s, 8, 2, Memory([1, 2, 5], 7), Memory([1, 2, 5], 7));
  }

  /** FIFO with three frames on the alternative string: the state after 10 references. */
  lemma FifoAnomalyThree10(s: seq<int>)
    requires |s| == 12 && s[9] == 3
    requires Fifo.Run(3, s, 9) == Memory([1, 2, 5], 7)
    ensures Fifo.Run(3, s, 10) == Memory([2, 5, 3], 8)
  {
    FifoNext(3, s, 9, 3, Memory([1, 2, 5], 7), Memory([2, 5, 3], 8));
  }

  /** FIFO with three frames on the alternative string: the state after 11 references. */
  lemma FifoAnomalyThree11(s: seq<int>)
    requires |s| == 12 && s[10] == 4
    requires Fifo.Run(3, s, 10) == Memory([2, 5, 3], 8)
    ensures Fifo.Run(3, s, 11) == Memory([5, 3, 4], 9)
  {
    FifoNext(3, s, 10, 4, Memory([2, 5, 3], 8), Memory([5, 3, 4], 9));
  }

  /** FIFO with three frames on the alternative string: the state after 12 references. */
  lemma FifoAnomalyThree12(s: seq<int>)
    requires |s| == 12 && s[11] == 5
    requires Fifo.Run(3, s, 11) == Memory([5, 3, 4], 9)
    ensures Fifo.Run(3, s, 12) == Memory([5, 3, 4], 9)
  {
    FifoNext(3, s, 11, 5, Memory([5, 3, 4], 9), Memory([5, 3, 4], 9));
  }

  /** FIFO with four frames on the alternative string: the state after 1 references. */
  lemma FifoAnomalyFour1(s: seq<int>)
    requires |s| == 12 && s[0] == 1
    ensures Fifo.Run(4, s, 1) == Memory([1], 1)
  {
    FifoNext(4, s, 0, 1, Memory([], 0), Memory([1], 1));
  }

  /** FIFO with four frames on the alternative string: the state after 2 references. */
  lemma FifoAnomalyFour2(s: seq<int>)
    requires |s| == 12 && s[1] == 2
    requires Fifo.Run(4, s, 1) == Memory([1], 1)
    ensures Fifo.Run(4, s, 2) == Memory([1, 2], 2)
  {
    FifoNext(4, s, 1, 2, Memory([1], 1), Memory([1, 2], 2));
  }

  /** FIFO with four frames on the alternative string: the state after 3 references. */
  lemma FifoAnomalyFour3(s: seq<int>)
    requires |s| == 12 && s[2] == 3
    requires Fifo.Run(4, s, 2) == Memory([1, 2], 2)
    ensures Fifo.Run(4, s, 3) == Memory([1, 2, 3], 3)
  {
    FifoNext(4, s, 2, 3, Memory([1, 2], 2), Memory([1, 2, 3], 3));
  }

  /** FIFO with four frames on the alternative string: the state after 4 references. */
  lemma FifoAnomalyFour4(s: seq<int>)
    requires |s| == 12 && s[3] == 4
    requires Fifo.Run(4, s, 3) == Memory([1, 2, 3], 3)
    ensures Fifo.Run(4, s, 4) == Memory([1, 2, 3, 4], 4)
  {
    FifoNext(4, s, 3, 4, Memory([1, 2, 3], 3), Memory([1, 2, 3, 4], 4));
  }

  /** FIFO with four frames on the alternative string: the state after 5 references. */
  lemma FifoAnomalyFour5(s: seq<int>)
    requires |s| == 12 && s[4] == 1
    requires Fifo.Run(4, s, 4) == Memory([1, 2, 3, 4], 4)
    ensures Fifo.Run(4, s, 5) == Memory([1, 2, 3, 4], 4)
  {
    FifoNext(4, s, 4, 1, Memory([1, 2, 3, 4], 4), Memory([1, 2, 3, 4], 4));
  }

  /** FIFO with four frames on the alternative string: the state after 6 references. */
  lemma FifoAnomalyFour6(s: seq<int>)
    requires |s| == 12 && s[5] == 2
    requires Fifo.Run(4, s, 5) == Memory([1, 2, 3, 4], 4)
    ensures Fifo.Run(4, s, 6) == Memory([1, 2, 3, 4], 4)
  {
    FifoNext(4, s, 5, 2, Memory([1, 2, 3, 4], 4), Memory([1, 2, 3, 4], 4));
  }

  /** FIFO with four frames on the alternative string: the state after 7 references. */
  lemma FifoAnomalyFour7(s: seq<int>)
    requires |s| == 12 && s[6] == 5
    requires Fifo.Run(4, s, 6) == Memory([1, 2, 3, 4], 4)
    ensures Fifo.Run(4, s, 7) == Memory([2, 3, 4, 5], 5)
  {
    FifoNext(4, s, 6, 5, Memory([1, 2, 3, 4], 4), Memory([2, 3, 4, 5], 5));
  }

  /** FIFO with four frames on the alternative string: the state after 8 references. */
  lemma FifoAnomalyFour8(s: seq<int>)
    requires |s| == 12 && s[7] == 1
    requires Fifo.Run(4, s, 7) == Memory([2, 3, 4, 5], 5)
    ensures Fifo.Run(4, s, 8) == Memory([3, 4, 5, 1], 6)
  {
    FifoNext(4, s, 7, 1, Memory([2, 3, 4, 5], 5), Memory([3, 4, 5, 1], 6));
  }

  /** FIFO with four frames on the alternative string: the state after 9 references. */
  lemma FifoAnomalyFour9(s: seq<int>)
    requires |s| == 12 && s[8] == 2
    requires Fifo.Run(4, s, 8) == Memory([3, 4, 5, 1], 6)
    ensures Fifo.Run(4, s, 9) == Memory([4, 5, 1, 2], 7)
  {
    FifoNext(4, s, 8, 2, Memory([3, 4, 5, 1], 6), Memory([4, 5, 1, 2], 7));
  }

  /** FIFO with four frames on the alternative string: the state after 10 references. */
  lemma FifoAnomalyFour10(s: seq<int>)
    requires |s| == 12 && s[9] == 3
    requires Fifo.Run(4, s, 9) == Memory([4, 5, 1, 2], 7)
    ensures Fifo.Run(4, s, 10) == Memory([5, 1, 2, 3], 8)
  {
    FifoNext(4, s, 9, 3, Memory([4, 5, 1, 2], 7), Memory([5, 1, 2, 3], 8));
  }

  /** FIFO with four frames on the alternative string: the state after 11 references. */
  lemma FifoAnomalyFour11(s: seq<int>)
    requires |s| == 12 && s[10] == 4
    requires Fifo.Run(4, s, 10) == Memory([5, 1, 2, 3], 8)
    ensures Fifo.Run(4, s, 11) == Memory([1, 2, 3, 4], 9)
  {
    FifoNext(4, s, 10, 4, Memory([5, 1, 2, 3], 8), Memory([1, 2, 3, 4], 9));
  }

  /** FIFO with four frames on the alternative string: the state after 12 references. */
  lemma FifoAnomalyFour12(s: seq<int>)
    requires |s| == 12 && s[11] == 5
    requires Fifo.Run(4, s, 11) == Memory([1, 2, 3, 4], 9)
    ensures Fifo.Run(4, s, 12) == Memory([2, 3, 4, 5], 10)
  {
    FifoNext(4, s, 11, 5, Memory([1, 2, 3, 4], 9), Memory([2, 3, 4, 5], 10));
  }

  /**
   * Belady's anomaly: on the alternative reference string FIFO misses 9
   * times with three frames but 10 times with four, so giving FIFO more
   * frames can cost more faults.
   */
  lemma FifoAnomaly()
    ensures Fifo.Faults(3, Anomaly()) == 9
    ensures Fifo.Faults(4, Anomaly()) == 10
  {
    var s := Anomaly();
    AnomalyEntries(s);
    FifoAnomalyThree1(s);
    FifoAnomalyThree2(s);
    FifoAnomalyThree3(s);
    FifoAnomalyThree4(s);
    FifoAnomalyThree5(s);
    FifoAnomalyThree6(s);
    FifoAnomalyThree7(s);
    FifoAnomalyThree8(s);
    FifoAnomalyThree9(s);
    FifoAnomalyThree10(s);
    FifoAnomalyThree11(s);
    FifoAnomalyThree12(s);
    FifoAnomalyFour1(s);
    FifoAnomalyFour2(s);
    FifoAnomalyFour3(s);
    FifoAnomalyFour4(s);
    FifoAnomalyFour5(s);
    FifoAnomalyFour6(s);
    FifoAnomalyFour7(s);
    FifoAnomalyFour8(s);
    FifoAnomalyFour9(s);
    FifoAnomalyFour10(s);
    FifoAnomalyFour11(s);
    FifoAnomalyFour12(s);
  }

  /** LRU with four frames on the alternative string: the state after 1 references. */
  lemma LruAnomalyFour1(s: seq<int>)
    requires |s| == 12 && s[0] == 1
    ensures Lru.Run(4, s, 1) == Memory([1], 1)
  {
    LruMiss(4, s, 0, 1, Memory([], 0), Memory([1], 1));
  }

  /** LRU with four frames on the alternative string: the state after 2 references. */
  lemma LruAnomalyFour2(s: seq<int>)
    requires |s| == 12 && s[1] == 2
    requires Lru.Run(4, s, 1) == Memory([1], 1)
    ensures Lru.Run(4, s, 2) == Memory([2, 1], 2)
  {
    LruMiss(4, s, 1, 2, Memory([1], 1), Memory([2, 1], 2));
  }

  /** LRU with four frames on the alternative string: the state after 3 references. */
  lemma LruAnomalyFour3(s: seq<int>)
    requires |s| == 12 && s[2] == 3
    requires Lru.Run(4, s, 2) == Memory([2, 1], 2)
    ensures Lru.Run(4, s, 3) == Memory([3, 2, 1], 3)
  {
    LruMiss(4, s, 2, 3, Memory([2, 1], 2), Memory([3, 2, 1], 3));
  }

  /** LRU with four frames on the alternative string: the state after 4 references. */
  lemma LruAnomalyFour4(s: seq<int>)
    requires |s| == 12 && s[3] == 4
    requires Lru.Run(4, s, 3) == Memory([3, 2, 1], 3)
    ensures Lru.Run(4, s, 4) == Memory([4, 3, 2, 1], 4)
  {
    LruMiss(4, s, 3, 4, Memory([3, 2, 1], 3), Memory([4, 3, 2, 1], 4));
  }

  /** LRU with four frames on the alternative string: the state after 5 references. */
  lemma LruAnomalyFour5(s: seq<int>)
    requires |s| == 12 && s[4] == 1
    requires Lru.Run(4, s, 4) == Memory([4, 3, 2, 1], 4)
    ensures Lru.Run(4, s, 5) == Memory([1, 4, 3, 2], 4)
  {
    LruHit(4, s, 4, 1, Memory([4, 3, 2, 1], 4), 3, Memory([1, 4, 3, 2], 4));
  }

  /** LRU with four frames on the alternative string: the state after 6 references. */
  lemma LruAnomalyFour6(s: seq<int>)
    requires |s| == 12 && s[5] == 2
    requires Lru.Run(4, s, 5) == Memory([1, 4, 3, 2], 4)
    ensures Lru.Run(4, s, 6) == Memory([2, 1, 4, 3], 4)
  {
    LruHit(4, s, 5, 2, Memory([1, 4, 3, 2], 4), 3, Memory([2, 1, 4, 3], 4));
  }

  /** LRU with four frames on the alternative string: the state after 7 references. */
  lemma LruAnomalyFour7(s: seq<int>)
    requires |s| == 12 && s[6] == 5
    requires Lru.Run(4, s, 6) == Memory([2, 1, 4, 3], 4)
    ensures Lru.Run(4, s, 7) == Memory([5, 2, 1, 4], 5)
  {
    LruMiss(4, s, 6, 5, Memory([2, 1, 4, 3], 4), Memory([5, 2, 1, 4], 5));
  }

  /**
   * With four frames on the alternative string, LRU's first eviction comes
   * with the reference to 5 and drops 3, the least recently used page.
   */
  lemma LruFirstEviction()
    ensures Lru.Run(4, Anomaly(), 6).frames == [2, 1, 4, 3]
    ensures Lru.Run(4, Anomaly(), 7).frames == [5, 2, 1, 4]
  {
    var s := Anomaly();
    AnomalyEntries(s);
    LruAnomalyFour1(s);
    LruAnomalyFour2(s);
    LruAnomalyFour3(s);
    LruAnomalyFour4(s);
    LruAnomalyFour5(s);
    LruAnomalyFour6(s);
    LruAnomalyFour7(s);
  }

  /**
   * When no resident is used again every distance ties: the first resident
   * in frame order is chosen.
   */
  lemma OptTieBreak()
    ensures Opt.Victim([2, 3], [4, 5]) == 0
  {
    assert Opt.Distance(2, [4, 5]) == 3;
  }
}
