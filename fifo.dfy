/**
 * First-In-First-Out replacement: the resident pages form a queue in
 * arrival order; a hit changes nothing, a miss evicts the head when every
 * frame is taken and appends the new page at the tail.
 */
module Fifo {
  import opened Paging

  /** One reference under FIFO. */
  function Step<T(==)>(size: int, m: Memory<T>, page: T): (r: Memory<T>)
    requires size >= 1
    ensures page in r.frames
    ensures r.faults == m.faults + if page in m.frames then 0 else 1
  {
    if page !in m.frames then
      var queue := if |m.frames| >= size then m.frames[1..] else m.frames;
      Memory(queue + [page], m.faults + 1)
    else
      m
  }

  /** The FIFO state after the first `n` references of `pages`. */
  function Run<T(==)>(size: int, pages: seq<T>, n: nat): (r: Memory<T>)
    requires size >= 1 && n <= |pages|
    ensures r.faults <= n
  {
    if n == 0 then Start() else Step(size, Run(size, pages, n - 1), pages[n - 1])
  }

  /** The number of faults FIFO incurs on the whole reference string. */
  function Faults<T(==)>(size: int, pages: seq<T>): (r: nat)
    requires size >= 1
    ensures r <= |pages|
  {
    Run(size, pages, |pages|).faults
  }

  /**
   * The queue keeps at most `size` distinct pages. A hit leaves queue and
   * count alone. A miss counts one fault; with a free frame it only appends
   * the page; with a full queue it removes exactly the head, keeps the
   * others in order and appends the page at the tail.
   */
  lemma StepSpec<T>(size: int, m: Memory<T>, page: T)
    requires size >= 1 && Fits(size, m.frames)
    ensures Fits(size, Step(size, m, page).frames)
    ensures page in m.frames ==> Step(size, m, page) == m
    ensures page !in m.frames ==> Step(size, m, page).faults == m.faults + 1
    ensures page !in m.frames && |m.frames| < size ==>
      Step(size, m, page).frames == m.frames + [page]
    ensures page !in m.frames && |m.frames| == size ==>
      var q := Step(size, m, page).frames;
      && q == m.frames[1..] + [page]
      && |q| == size
      && m.frames[0] !in q
      && Elems(q) == Elems(m.frames) - {m.frames[0]} + {page}
  {
    if page !in m.frames {
      var q := Step(size, m, page).frames;
      var rest := if |m.frames| >= size then m.frames[1..] else m.frames;
      assert q == rest + [page];
      assert forall y :: y in rest ==> y in m.frames;
      assert NoDup(q);
      if |m.frames| == size {
        assert m.frames == [m.frames[0]] + rest;
        assert forall y :: y in m.frames <==> y == m.frames[0] || y in rest;
      }
    }
  }

  lemma {:induction false} StepLawsHold<T>(size: int, m: Memory<T>, page: T)
    requires size >= 1 && Fits(size, m.frames)
    ensures StepLaws(size, m, page, Step(size, m, page))
  {
    StepSpec(size, m, page);
    if page !in m.frames {
      var q := Step(size, m, page).frames;
      if |m.frames| < size {
        ElemsSnoc(m.frames, page);
      } else {
        ElemsSnoc(m.frames[1..], page);
        assert forall y :: y in m.frames[1..] ==> y in m.frames;
      }
    }
  }

  /** One reference keeps the count invariant. */
  lemma CountedStep<T>(size: int, prefix: seq<T>, m: Memory<T>, page: T)
    requires size >= 1 && Counted(size, prefix, m)
    ensures Counted(size, prefix + [page], Step(size, m, page))
  {
    StepLawsHold(size, m, page);
    CountStep(size, prefix, page, m, Step(size, m, page));
  }

  /** The count invariant holds after every prefix of the reference string. */
  lemma {:induction false} RunCounted<T>(size: int, pages: seq<T>, n: nat)
    requires size >= 1 && n <= |pages|
    ensures Counted(size, pages[..n], Run(size, pages, n))
  {
    if n == 0 {
      CountedStart<T>(size);
    } else {
      RunCounted(size, pages, n - 1);
      CountedStep(size, pages[..n - 1], Run(size, pages, n - 1), pages[n - 1]);
      assert pages[..n] == pages[..n - 1] + [pages[n - 1]];
    }
  }

  /**
   * An empty reference string costs nothing; otherwise every distinct
   * page faults at least once and no reference faults twice; and when the
   * distinct pages fit in the frames, exactly the first references fault.
   */
  lemma FaultBounds<T>(size: int, pages: seq<T>)
    requires size >= 1
    ensures pages == [] ==> Faults(size, pages) == 0
    ensures |Elems(pages)| <= Faults(size, pages) <= |pages|
    ensures size >= |Elems(pages)| ==> Faults(size, pages) == |Elems(pages)|
  {
    RunCounted(size, pages, |pages|);
    assert pages[..|pages|] == pages;
  }

  /**
   * When the distinct pages fit in the frames, a miss always finds a free
   * frame, so the head of the queue is never evicted.
   */
  lemma NoEviction<T>(size: int, pages: seq<T>, n: nat)
    requires size >= 1 && size >= |Elems(pages)|
    requires n < |pages| && pages[n] !in Run(size, pages, n).frames
    ensures |Run(size, pages, n).frames| < size
    ensures Run(size, pages, n + 1).frames == Run(size, pages, n).frames + [pages[n]]
  {
    RunCounted(size, pages, n);
    assert pages[..n + 1] == pages[..n] + [pages[n]];
    ElemsPrefix(pages, n + 1);
    SubsetCard(Elems(pages[..n + 1]), Elems(pages));
    MissFindsFreeFrame(size, pages[..n], pages[n], Run(size, pages, n));
  }

  /** The simulator: walks the reference string once with a local queue. */
  method PageFaults<T(==)>(size: int, pages: seq<T>) returns (pageFaults: nat)
    requires size >= 1
    ensures pageFaults == Faults(size, pages)
    ensures |Elems(pages)| <= pageFaults <= |pages|
    ensures size >= |Elems(pages)| ==> pageFaults == |Elems(pages)|
  {
    var queue: seq<T> := [];
    pageFaults := 0;
    for i := 0 to |pages|
      invariant Memory(queue, pageFaults) == Run(size, pages, i)
    {
      var page := pages[i];
      assert Run(size, pages, i + 1) == Step(size, Memory(queue, pageFaults), page);
      if page !in queue {
        pageFaults := pageFaults + 1;
        if |queue| >= size {
          queue := queue[1..];
        }
        queue := queue + [page];
      }
    }
    FaultBounds(size, pages);
  }
}
