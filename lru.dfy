/**
 * Least-Recently-Used replacement: the resident pages form a stack ordered
 * by recency, most recent first. Every reference moves its page to the top;
 * a miss with every frame taken first drops the bottom entry.
 */
module Lru {
  import opened Paging

  /** One reference under LRU, with the branches of the source kept apart. */
  function Step<T(==)>(size: int, m: Memory<T>, page: T): (r: Memory<T>)
    requires size >= 1
    ensures |r.frames| > 0 && r.frames[0] == page
    ensures r.faults == m.faults + if page in m.frames then 0 else 1
  {
    var stack := m.frames;
    if |stack| < size then
      if page in stack then Memory([page] + Remove(stack, page), m.faults)
      else Memory([page] + stack, m.faults + 1)
    else
      if page in stack then Memory([page] + Remove(stack, page), m.faults)
      else Memory([page] + (stack[..size - 1] + stack[size..]), m.faults + 1)
  }

  /** The LRU state after the first `n` references of `pages`. */
  function Run<T(==)>(size: int, pages: seq<T>, n: nat): (r: Memory<T>)
    requires size >= 1 && n <= |pages|
    ensures r.faults <= n
  {
    if n == 0 then Start() else Step(size, Run(size, pages, n - 1), pages[n - 1])
  }

  /** The number of faults LRU incurs on the whole reference string. */
  function Faults<T(==)>(size: int, pages: seq<T>): (r: nat)
    requires size >= 1
    ensures r <= |pages|
  {
    Run(size, pages, |pages|).faults
  }

  /**
   * The stack keeps at most `size` distinct pages and the referenced page
   * ends on top. A hit costs nothing and moves the page to the top, the
   * others keeping their order. A miss counts one fault; with a free frame
   * it only pushes the page; with a full stack it drops exactly the bottom
   * entry `stack[size-1]` before pushing the page.
   */
  lemma StepSpec<T>(size: int, m: Memory<T>, page: T)
    requires size >= 1 && Fits(size, m.frames)
    ensures Fits(size, Step(size, m, page).frames)
    ensures |Step(size, m, page).frames| > 0 && Step(size, m, page).frames[0] == page
    ensures page in m.frames ==>
      var i := IndexOf(m.frames, page);
      && Step(size, m, page).faults == m.faults
      && Step(size, m, page).frames == [page] + m.frames[..i] + m.frames[i + 1..]
    ensures page !in m.frames ==> Step(size, m, page).faults == m.faults + 1
    ensures page !in m.frames && |m.frames| < size ==>
      Step(size, m, page).frames == [page] + m.frames
    ensures page !in m.frames && |m.frames| == size ==>
      var s := Step(size, m, page).frames;
      && s == [page] + m.frames[..size - 1]
      && |s| == size
      && m.frames[size - 1] !in s
  {
    var s := Step(size, m, page).frames;
    if page in m.frames {
      RemoveResident(m.frames, page);
      NoDupCons(page, Remove(m.frames, page));
    } else if |m.frames| < size {
      NoDupCons(page, m.frames);
    } else {
      var kept := m.frames[..size - 1];
      assert m.frames[..size - 1] + m.frames[size..] == kept;
      NoDupDrop(m.frames, size - 1);
      assert m.frames[..size - 1] + m.frames[size..] == kept;
      NoDupCons(page, kept);
    }
  }

  lemma {:induction false} StepLawsHold<T>(size: int, m: Memory<T>, page: T)
    requires size >= 1 && Fits(size, m.frames)
    ensures StepLaws(size, m, page, Step(size, m, page))
  {
    StepSpec(size, m, page);
    if page in m.frames {
      RemoveResident(m.frames, page);
      ElemsCons(page, Remove(m.frames, page));
    } else if |m.frames| < size {
      ElemsCons(page, m.frames);
    } else {
      var kept := m.frames[..size - 1];
      assert m.frames[..size - 1] + m.frames[size..] == kept;
      ElemsCons(page, kept);
      ElemsPrefix(m.frames, size - 1);
    }
  }

  /** One reference keeps the count invariant. */
  lemma CountedStep<T>(size: int, prefix: seq<T>, m: Memory<T>, page: T)
    requires size >= 1 && Counted(size, prefix, m)
    ensures Counted(size, prefix + [page], Step(size, m, page))
  {
    StepLawsHold(size, m, page);
    CountStep(size, prefix, page, m, Step(size, m, page));
  }

  /** The count invariant holds after every prefix of the reference string. */
  lemma {:induction false} RunCounted<T>(size: int, pages: seq<T>, n: nat)
    requires size >= 1 && n <= |pages|
    ensures Counted(size, pages[..n], Run(size, pages, n))
  {
    if n == 0 {
      CountedStart<T>(size);
    } else {
      RunCounted(size, pages, n - 1);
      CountedStep(size, pages[..n - 1], Run(size, pages, n - 1), pages[n - 1]);
      assert pages[..n] == pages[..n - 1] + [pages[n - 1]];
    }
  }

  /**
   * After every reference the stack fits in the frames, holds no page
   * twice, and has the page just referenced on top.
   */
  lemma RunTop<T>(size: int, pages: seq<T>, n: nat)
    requires size >= 1 && 0 < n <= |pages|
    ensures Fits(size, Run(size, pages, n).frames)
    ensures |Run(size, pages, n).frames| > 0 && Run(size, pages, n).frames[0] == pages[n - 1]
  {
    RunCounted(size, pages, n - 1);
    StepSpec(size, Run(size, pages, n - 1), pages[n - 1]);
  }

  /**
   * An empty reference string costs nothing; otherwise every distinct
   * page faults at least once and no reference faults twice; and when the
   * distinct pages fit in the frames, exactly the first references fault.
   */
  lemma FaultBounds<T>(size: int, pages: seq<T>)
    requires size >= 1
    ensures pages == [] ==> Faults(size, pages) == 0
    ensures |Elems(pages)| <= Faults(size, pages) <= |pages|
    ensures size >= |Elems(pages)| ==> Faults(size, pages) == |Elems(pages)|
  {
    RunCounted(size, pages, |pages|);
    assert pages[..|pages|] == pages;
  }

  /**
   * When the distinct pages fit in the frames, a miss always finds a free
   * frame, so the bottom of the stack is never dropped.
   */
  lemma NoEviction<T>(size: int, pages: seq<T>, n: nat)
    requires size >= 1 && size >= |Elems(pages)|
    requires n < |pages| && pages[n] !in Run(size, pages, n).frames
    ensures |Run(size, pages, n).frames| < size
    ensures Run(size, pages, n + 1).frames == [pages[n]] + Run(size, pages, n).frames
  {
    RunCounted(size, pages, n);
    assert pages[..n + 1] == pages[..n] + [pages[n]];
    ElemsPrefix(pages, n + 1);
    SubsetCard(Elems(pages[..n + 1]), Elems(pages));
    MissFindsFreeFrame(size, pages[..n], pages[n], Run(size, pages, n));
  }

  // ---------------------------------------------------------------------
  // A reference definition: the recency list, which never evicts.

  /** `s` with every occurrence of `x` left out. */
  function Without<T(==)>(s: seq<T>, x: T): (r: seq<T>)
    ensures |r| <= |s|
  {
    if s == [] then []
    else (if s[0] == x then [] else [s[0]]) + Without(s[1..], x)
  }

  lemma {:induction false} WithoutSpec<T>(s: seq<T>, x: T)
    ensures Elems(Without(s, x)) == Elems(s) - {x}
    ensures NoDup(s) ==> NoDup(Without(s, x))
  {
    if s != [] {
      WithoutSpec(s[1..], x);
      var w := Without(s[1..], x);
      assert s == [s[0]] + s[1..];
      ElemsCons(s[0], s[1..]);
      if s[0] != x {
        ElemsCons(s[0], w);
        if NoDup(s) {
          NoDupSlice(s, 1, |s|);
          assert s[0] !in s[1..];
          NoDupCons(s[0], w);
        }
      } else {
        assert Without(s, x) == w;
        if NoDup(s) {
          NoDupSlice(s, 1, |s|);
        }
      }
    }
  }

  lemma {:induction false} WithoutAbsent<T>(s: seq<T>, x: T)
    requires x !in s
    ensures Without(s, x) == s
  {
    if s != [] {
      WithoutAbsent(s[1..], x);
    }
  }

  lemma {:induction false} WithoutAppend<T>(a: seq<T>, b: seq<T>, x: T)
    ensures Without(a + b, x) == Without(a, x) + Without(b, x)
  {
    if a != [] {
      assert (a + b)[1..] == a[1..] + b;
      WithoutAppend(a[1..], b, x);
    } else {
      assert a + b == b;
    }
  }

  /** Leaving out an element that occurs in one slot only removes that slot. */
  lemma WithoutSlot<T>(s: seq<T>, i: nat)
    requires i < |s| && s[i] !in s[..i] && s[i] !in s[i + 1..]
    ensures Without(s, s[i]) == s[..i] + s[i + 1..]
  {
    var x, before, after := s[i], s[..i], s[i + 1..];
    assert Without(s, x) == Without(before, x) + Without([x] + after, x) by {
      SplitAt(s, i);
      WithoutAppend(before, [x] + after, x);
    }
    assert Without([x] + after, x) == after by {
      WithoutAppend([x], after, x);
      WithoutAbsent(after, x);
      assert Without([x], x) == [];
    }
    assert Without(before, x) == before by {
      WithoutAbsent(before, x);
    }
  }

  /** Without duplicates, leaving out an element removes exactly its slot. */
  lemma WithoutAt<T>(s: seq<T>, i: nat)
    requires NoDup(s) && i < |s|
    ensures Without(s, s[i]) == s[..i] + s[i + 1..]
  {
    NoDupDrop(s, i);
    WithoutSlot(s, i);
  }

  /**
   * The distinct pages of `s`, most recently referenced first: the stack
   * LRU would keep with unlimited frames.
   */
  function Recency<T(==)>(s: seq<T>): (r: seq<T>)
    ensures NoDup(r) && Elems(r) == Elems(s)
    decreases |s|
  {
    if s == [] then []
    else
      var p, rest := s[|s| - 1], Recency(s[..|s| - 1]);
      assert s == s[..|s| - 1] + [p];
      ElemsSnoc(s[..|s| - 1], p);
      WithoutSpec(rest, p);
      NoDupCons(p, Without(rest, p));
      ElemsCons(p, Without(rest, p));
      [p] + Without(rest, p)
  }

  /** The first `k` entries of `s` (all of them when there are fewer). */
  function Take<T>(s: seq<T>, k: nat): (r: seq<T>)
    ensures |r| <= k
  {
    if |s| <= k then s else s[..k]
  }

  /** Dropping slot `i` of the first `size` entries keeps `size - 1` of them. */
  lemma DropSlotOfPrefix<T>(rec: seq<T>, size: nat, i: nat)
    requires i < size < |rec|
    ensures rec[..size][..i] + rec[..size][i + 1..] == (rec[..i] + rec[i + 1..])[..size - 1]
  {
    var w := rec[..i] + rec[i + 1..];
    assert rec[..size][..i] == rec[..i];
    assert rec[..size][i + 1..] == rec[i + 1..size];
    assert w[..size - 1] == rec[..i] + rec[i + 1..size];
  }

  /** A hit on the truncated recency list: the page moves to the top. */
  lemma TruncatedHit<T>(size: int, rec: seq<T>, i: nat)
    requires size >= 1 && NoDup(rec) && i < |rec| && i < size
    ensures [rec[i]] + Remove(Take(rec, size), rec[i]) == Take([rec[i]] + Without(rec, rec[i]), size)
  {
    WithoutAt(rec, i);
    if |rec| > size {
      TruncatedHitLong(size, rec, i);
    } else {
      IndexOfNoDup(rec, i);
    }
  }

  /** The hit case when the recency list is longer than the stack. */
  lemma TruncatedHitLong<T>(size: int, rec: seq<T>, i: nat)
    requires NoDup(rec) && i < size < |rec|
    ensures [rec[i]] + Remove(rec[..size], rec[i]) == Take([rec[i]] + (rec[..i] + rec[i + 1..]), size)
  {
    var s := rec[..size];
    NoDupSlice(rec, 0, size);
    assert rec[0..size] == s;
    IndexOfNoDup(s, i);
    DropSlotOfPrefix(rec, size, i);
    TakeCons(rec[i], rec[..i] + rec[i + 1..], size);
  }

  lemma DropBottomOfPrefix<T>(rec: seq<T>, size: nat)
    requires 1 <= size <= |rec|
    ensures Take(rec, size)[..size - 1] + Take(rec, size)[size..] == rec[..size - 1]
  {
    var s := rec[..size];
    assert Take(rec, size) == s;
    assert s[size..] == [];
    assert s[..size - 1] == rec[..size - 1];
  }

  lemma WithoutKeepsPrefix<T>(rec: seq<T>, k: nat, p: T)
    requires k <= |rec| && p !in rec[..k]
    ensures |Without(rec, p)| >= k && Without(rec, p)[..k] == rec[..k]
  {
    var head, tail := rec[..k], rec[k..];
    assert rec == head + tail;
    WithoutAppend(head, tail, p);
    WithoutAbsent(head, p);
  }

  /** Truncating a list with a new head to `k` entries keeps `k - 1` of the old ones. */
  lemma TakeCons<T>(p: T, w: seq<T>, k: nat)
    requires 1 <= k && |w| >= k - 1
    ensures Take([p] + w, k) == [p] + w[..k - 1]
  {
    if |w| == k - 1 {
      assert w == w[..k - 1];
    } else {
      assert ([p] + w)[..k] == [p] + w[..k - 1];
    }
  }

  /** A miss on a full truncated recency list: the bottom entry goes. */
  lemma TruncatedFullMiss<T>(size: int, rec: seq<T>, p: T)
    requires size >= 1 && |rec| >= size && p !in rec[..size]
    ensures [p] + (Take(rec, size)[..size - 1] + Take(rec, size)[size..]) == Take([p] + Without(rec, p), size)
  {
    DropBottomOfPrefix(rec, size);
    assert p !in rec[..size - 1] by {
      assert rec[..size - 1] == rec[..size][..size - 1];
    }
    WithoutKeepsPrefix(rec, size - 1, p);
    TakeCons(p, Without(rec, p), size);
  }

  /**
   * One LRU step on the truncated recency list gives the truncation of the
   * recency list after the reference.
   */
  lemma TruncationStep<T>(size: int, rec: seq<T>, p: T, faults: nat)
    requires size >= 1 && NoDup(rec)
    ensures Step(size, Memory(Take(rec, size), faults), p).frames == Take([p] + Without(rec, p), size)
  {
    var s := Take(rec, size);
    if p in s {
      var i := IndexOf(s, p);
      assert s == rec[..|s|];
      assert rec[i] == p;
      TruncatedHit(size, rec, i);
    } else if |s| < size {
      assert s == rec;
      WithoutAbsent(rec, p);
    } else {
      assert s == rec[..size];
      TruncatedFullMiss(size, rec, p);
    }
  }

  /**
   * The LRU stack after any prefix is exactly the `size` most recently
   * referenced distinct pages, most recent first.
   */
  lemma {:induction false} MatchesRecency<T>(size: int, pages: seq<T>, n: nat)
    requires size >= 1 && n <= |pages|
    ensures Run(size, pages, n).frames == Take(Recency(pages[..n]), size)
  {
    if n > 0 {
      MatchesRecency(size, pages, n - 1);
      var prev := Run(size, pages, n - 1);
      assert pages[..n][..n - 1] == pages[..n - 1];
      TruncationStep(size, Recency(pages[..n - 1]), pages[n - 1], prev.faults);
    }
  }

  /**
   * A reference faults exactly when its page is not among the `size` most
   * recently referenced distinct pages.
   */
  lemma FaultIffNotRecent<T>(size: int, pages: seq<T>, n: nat)
    requires size >= 1 && n < |pages|
    ensures Run(size, pages, n + 1).faults ==
      Run(size, pages, n).faults + if pages[n] in Take(Recency(pages[..n]), size) then 0 else 1
  {
    MatchesRecency(size, pages, n);
  }

  /** The simulator: walks the reference string once with a local stack. */
  method PageFaults<T(==)>(size: int, pages: seq<T>) returns (pageFaults: nat)
    requires size >= 1
    ensures pageFaults == Faults(size, pages)
    ensures |Elems(pages)| <= pageFaults <= |pages|
    ensures size >= |Elems(pages)| ==> pageFaults == |Elems(pages)|
  {
    var stack: seq<T> := [];
    pageFaults := 0;
    for i := 0 to |pages|
      invariant Memory(stack, pageFaults) == Run(size, pages, i)
    {
      var page := pages[i];
      assert Run(size, pages, i + 1) == Step(size, Memory(stack, pageFaults), page);
      if |stack| < size {
        if page in stack {
          stack := Remove(stack, page);
        } else {
          pageFaults := pageFaults + 1;
        }
      } else {
        if page in stack {
          stack := Remove(stack, page);
        } else {
          pageFaults := pageFaults + 1;
          stack := stack[..size - 1] + stack[size..];
        }
      }
      stack := [page] + stack;
    }
    FaultBounds(size, pages);
  }
}
