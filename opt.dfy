/**
 * Optimal (Belady) replacement: free frames are filled in order; once
 * every frame is taken, a miss overwrites the slot of the resident page
 * whose next reference lies farthest in the future, a page never referenced
 * again counting as farther than any.
 */
module Opt {
  import opened Paging

  /**
   * The 1-based position of the first occurrence of `x` in `future`, or
   * None when `x` is never referenced again.
   */
  function NextUse<T(==)>(x: T, future: seq<T>): (r: Option<nat>)
    ensures r.Some? ==> 1 <= r.value <= |future|
  {
    if future == [] then None
    else if future[0] == x then Some(1)
    else
      match NextUse(x, future[1..])
      case None => None
      case Some(d) => Some(d + 1)
  }

  /**
   * NextUse finds nothing exactly when the page is not referenced again;
   * otherwise it names a position holding the page with no earlier one.
   */
  lemma {:induction false} NextUseSpec<T>(x: T, future: seq<T>)
    ensures NextUse(x, future).None? <==> x !in future
    ensures NextUse(x, future).Some? ==> future[NextUse(x, future).value - 1] == x
    ensures NextUse(x, future).Some? ==>
      forall j :: 0 <= j < NextUse(x, future).value - 1 ==> future[j] != x
  {
    if future != [] && future[0] != x {
      NextUseSpec(x, future[1..]);
      assert future == [future[0]] + future[1..];
    }
  }

  /** A position holding the page with no earlier one is its next use. */
  lemma NextUseAt<T>(x: T, future: seq<T>, i: nat)
    requires i < |future| && future[i] == x
    requires forall j :: 0 <= j < i ==> future[j] != x
    ensures NextUse(x, future) == Some(i + 1)
  {
    NextUseSpec(x, future);
  }

  /**
   * The next-use distance as one number: a page never referenced again is
   * one farther than the end of the reference string.
   */
  function Distance<T(==)>(x: T, future: seq<T>): (d: nat)
    ensures 1 <= d <= |future| + 1
  {
    match NextUse(x, future)
    case Some(d) => d
    case None => |future| + 1
  }

  /** The greatest distance means never referenced again; any other is the next use. */
  lemma DistanceSpec<T>(x: T, future: seq<T>)
    ensures Distance(x, future) == |future| + 1 <==> x !in future
    ensures x in future ==> NextUse(x, future) == Some(Distance(x, future))
  {
    NextUseSpec(x, future);
  }

  /** Among `frames[k..]`, the first slot whose page is used farthest in the future. */
  function Farthest<T(==)>(frames: seq<T>, future: seq<T>, k: nat): (v: nat)
    requires k < |frames|
    ensures k <= v < |frames|
    decreases |frames| - k
  {
    if k == |frames| - 1 then k
    else
      var r := Farthest(frames, future, k + 1);
      if Distance(frames[k], future) >= Distance(frames[r], future) then k else r
  }

  /** No later slot is farther than Farthest's and every earlier slot is nearer. */
  lemma {:induction false} FarthestSpec<T>(frames: seq<T>, future: seq<T>, k: nat)
    requires k < |frames|
    ensures forall j :: k <= j < |frames| ==>
      Distance(frames[j], future) <= Distance(frames[Farthest(frames, future, k)], future)
    ensures forall j :: k <= j < Farthest(frames, future, k) ==>
      Distance(frames[j], future) < Distance(frames[Farthest(frames, future, k)], future)
    decreases |frames| - k
  {
    if k < |frames| - 1 {
      FarthestSpec(frames, future, k + 1);
    }
  }

  /** The slot the optimal policy overwrites. */
  function Victim<T(==)>(frames: seq<T>, future: seq<T>): (v: nat)
    requires |frames| > 0
    ensures v < |frames|
  {
    Farthest(frames, future, 0)
  }

  /**
   * The victim in the order the source scans the frames: the first
   * resident never referenced again if there is one; otherwise the resident
   * with the greatest next-use distance (its NextUse, by DistanceSpec), the
   * earliest one in frame order among equals.
   */
  lemma VictimSpec<T>(frames: seq<T>, future: seq<T>)
    requires |frames| > 0
    ensures (exists j :: 0 <= j < |frames| && frames[j] !in future) ==>
      var v := Victim(frames, future);
      && frames[v] !in future
      && forall j :: 0 <= j < v ==> frames[j] in future
    ensures (forall j :: 0 <= j < |frames| ==> frames[j] in future) ==>
      var v := Victim(frames, future);
      && (forall j :: 0 <= j < |frames| ==>
            Distance(frames[j], future) <= Distance(frames[v], future))
      && (forall j :: 0 <= j < v ==>
            Distance(frames[j], future) < Distance(frames[v], future))
  {
    FarthestSpec(frames, future, 0);
    forall j | 0 <= j < |frames| {
      DistanceSpec(frames[j], future);
    }
  }

  /** The first farthest slot is the only slot with that property. */
  lemma VictimUnique<T>(frames: seq<T>, future: seq<T>, v: nat)
    requires v < |frames|
    requires forall j :: 0 <= j < |frames| ==> Distance(frames[j], future) <= Distance(frames[v], future)
    requires forall j :: 0 <= j < v ==> Distance(frames[j], future) < Distance(frames[v], future)
    ensures v == Victim(frames, future)
  {
    FarthestSpec(frames, future, 0);
    var w := Farthest(frames, future, 0);
    assert !(w < v) && !(v < w);
  }

  /** One reference at some position, `future` being the references after it. */
  function Step<T(==)>(size: int, m: Memory<T>, page: T, future: seq<T>): (r: Memory<T>)
    requires size >= 1
    ensures page in m.frames ==> r == m
    ensures r.faults == m.faults + if page in m.frames then 0 else 1
  {
    var frames := m.frames;
    if |frames| < size then
      if page !in frames then Memory(frames + [page], m.faults + 1) else m
    else if page !in frames then
      var frameToReplace := frames[Victim(frames, future)];
      var pos := IndexOf(frames, frameToReplace);
      Memory(Insert(Remove(frames, frameToReplace), pos, page), m.faults + 1)
    else
      m
  }

  /** The OPT state after the first `n` references of `pages`. */
  function Run<T(==)>(size: int, pages: seq<T>, n: nat): (r: Memory<T>)
    requires size >= 1 && n <= |pages|
  {
    if n == 0 then Start()
    else Step(size, Run(size, pages, n - 1), pages[n - 1], pages[n..])
  }

  /** The number of faults OPT incurs on the whole reference string. */
  function Faults<T(==)>(size: int, pages: seq<T>): (r: nat)
    requires size >= 1
    ensures r <= |pages|
  {
    RunCounted(size, pages, |pages|);
    Run(size, pages, |pages|).faults
  }

  /**
   * The frames keep at most `size` distinct pages. A hit changes nothing.
   * A miss counts one fault; with a free frame it only appends the page;
   * with every frame taken it overwrites the victim's slot in place and
   * leaves every other slot as it was.
   */
  lemma StepSpec<T>(size: int, m: Memory<T>, page: T, future: seq<T>)
    requires size >= 1 && Fits(size, m.frames)
    ensures Fits(size, Step(size, m, page, future).frames)
    ensures page in m.frames ==> Step(size, m, page, future) == m
    ensures page !in m.frames ==> Step(size, m, page, future).faults == m.faults + 1
    ensures page !in m.frames && |m.frames| < size ==>
      Step(size, m, page, future).frames == m.frames + [page]
    ensures page !in m.frames && |m.frames| == size ==>
      var v, f := Victim(m.frames, future), Step(size, m, page, future).frames;
      && f == m.frames[v := page]
      && |f| == size
      && f[v] == page
      && forall j :: 0 <= j < size && j != v ==> f[j] == m.frames[j]
  {
    if page !in m.frames {
      if |m.frames| < size {
        NoDupSnoc(m.frames, page);
      } else {
        var v := Victim(m.frames, future);
        ReplaceSlot(m.frames, v, page);
        NoDupReplace(m.frames, v, page);
      }
    }
  }

  /** Overwriting one slot with a page that was not resident keeps the frames duplicate-free. */
  lemma NoDupReplace<T>(s: seq<T>, v: nat, p: T)
    requires NoDup(s) && v < |s| && p !in s
    ensures NoDup(s[v := p])
    ensures Elems(s[v := p]) == Elems(s) - {s[v]} + {p}
  {
    var t := s[v := p];
    forall i, j | 0 <= i < j < |t| ensures t[i] != t[j] {
      if i != v && j != v {
        assert t[i] == s[i] && t[j] == s[j];
      }
    }
    forall y | y in s && y != s[v] ensures y in t {
      var i :| 0 <= i < |s| && s[i] == y;
      assert t[i] == y;
    }
    assert t[v] == p;
  }

  lemma {:induction false} StepLawsHold<T>(size: int, m: Memory<T>, page: T, future: seq<T>)
    requires size >= 1 && Fits(size, m.frames)
    ensures StepLaws(size, m, page, Step(size, m, page, future))
  {
    StepSpec(size, m, page, future);
    if page !in m.frames {
      if |m.frames| < size {
        ElemsSnoc(m.frames, page);
      } else {
        NoDupReplace(m.frames, Victim(m.frames, future), page);
      }
    }
  }

  /** One reference keeps the count invariant. */
  lemma CountedStep<T>(size: int, prefix: seq<T>, m: Memory<T>, page: T, future: seq<T>)
    requires size >= 1 && Counted(size, prefix, m)
    ensures Counted(size, prefix + [page], Step(size, m, page, future))
  {
    StepLawsHold(size, m, page, future);
    CountStep(size, prefix, page, m, Step(size, m, page, future));
  }

  /** The count invariant holds after every prefix of the reference string. */
  lemma {:induction false} RunCounted<T>(size: int, pages: seq<T>, n: nat)
    requires size >= 1 && n <= |pages|
    ensures Counted(size, pages[..n], Run(size, pages, n))
  {
    if n == 0 {
      CountedStart<T>(size);
    } else {
      RunCounted(size, pages, n - 1);
      CountedStep(size, pages[..n - 1], Run(size, pages, n - 1), pages[n - 1], pages[n..]);
      assert pages[..n] == pages[..n - 1] + [pages[n - 1]];
    }
  }

  /**
   * An empty reference string costs nothing; otherwise every distinct
   * page faults at least once and no reference faults twice; and when the
   * distinct pages fit in the frames, exactly the first references fault.
   */
  lemma FaultBounds<T>(size: int, pages: seq<T>)
    requires size >= 1
    ensures pages == [] ==> Faults(size, pages) == 0
    ensures |Elems(pages)| <= Faults(size, pages) <= |pages|
    ensures size >= |Elems(pages)| ==> Faults(size, pages) == |Elems(pages)|
  {
    RunCounted(size, pages, |pages|);
    assert pages[..|pages|] == pages;
  }

  /**
   * When the distinct pages fit in the frames, a miss always finds a free
   * frame, so no victim is ever chosen.
   */
  lemma NoEviction<T>(size: int, pages: seq<T>, n: nat)
    requires size >= 1 && size >= |Elems(pages)|
    requires n < |pages| && pages[n] !in Run(size, pages, n).frames
    ensures |Run(size, pages, n).frames| < size
    ensures Run(size, pages, n + 1).frames == Run(size, pages, n).frames + [pages[n]]
  {
    RunCounted(size, pages, n);
    assert pages[..n + 1] == pages[..n] + [pages[n]];
    ElemsPrefix(pages, n + 1);
    SubsetCard(Elems(pages[..n + 1]), Elems(pages));
    MissFindsFreeFrame(size, pages[..n], pages[n], Run(size, pages, n));
  }

  /** A step from full frames holding distinct pages leaves them so. */
  lemma FullStep<T>(size: int, m: Memory<T>, page: T, future: seq<T>)
    requires size >= 1 && |m.frames| == size && NoDup(m.frames)
    ensures |Step(size, m, page, future).frames| == size && NoDup(Step(size, m, page, future).frames)
  {
    StepSpec(size, m, page, future);
  }

  /**
   * Once every frame is taken, every frame stays taken, by pages that are
   * all distinct, for the rest of the reference string.
   */
  lemma {:induction false} StaysFull<T>(size: int, pages: seq<T>, n: nat, n': nat)
    requires size >= 1 && n <= n' <= |pages|
    requires |Run(size, pages, n).frames| == size
    ensures |Run(size, pages, n').frames| == size && NoDup(Run(size, pages, n').frames)
    decreases n' - n
  {
    if n' == n {
      RunCounted(size, pages, n);
    } else {
      StaysFull(size, pages, n, n' - 1);
      FullStep(size, Run(size, pages, n' - 1), pages[n' - 1], pages[n'..]);
    }
  }

  /**
   * The victim search of the source: frames are scanned in order; for each
   * one the remaining references are searched for its next use; the first
   * frame never used again is taken at once, otherwise the frame with the
   * strictly greatest next-use distance so far is kept.
   */
  method ChooseVictim<T(==)>(frames: seq<T>, upcomingPages: seq<T>) returns (frameToReplace: T)
    requires |frames| > 0
    ensures frameToReplace == frames[Victim(frames, upcomingPages)]
  {
    frameToReplace := frames[0];
    var maxTimeTillUse: nat := 0;
    ghost var best: nat := 0;
    var k := 0;
    while k < |frames|
      invariant 0 <= k <= |frames| && best < |frames| && frameToReplace == frames[best]
      invariant k == 0 ==> best == 0 && maxTimeTillUse == 0
      invariant k > 0 ==> best < k && maxTimeTillUse == Distance(frames[best], upcomingPages)
      invariant forall j :: 0 <= j < k ==> frames[j] in upcomingPages
      invariant forall j :: 0 <= j < k ==> Distance(frames[j], upcomingPages) <= maxTimeTillUse
      invariant forall j :: 0 <= j < best ==> Distance(frames[j], upcomingPages) < maxTimeTillUse
    {
      var frame := frames[k];
      var i := 0;
      while i < |upcomingPages| && frame != upcomingPages[i]
        invariant 0 <= i <= |upcomingPages|
        invariant forall j :: 0 <= j < i ==> upcomingPages[j] != frame
      {
        i := i + 1;
      }
      if i == |upcomingPages| {
        // the search ran off the end: this frame is never referenced again
        frameToReplace := frame;
        best := k;
        break;
      }
      var timeTillUse := i + 1;
      NextUseAt(frame, upcomingPages, i);
      if timeTillUse > maxTimeTillUse {
        maxTimeTillUse := timeTillUse;
        frameToReplace := frame;
        best := k;
      }
      k := k + 1;
    }
    forall j | 0 <= j < |frames| {
      DistanceSpec(frames[j], upcomingPages);
    }
    assert forall j :: 0 <= j < best ==> Distance(frames[j], upcomingPages) < Distance(frames[best], upcomingPages);
    assert forall j :: 0 <= j < |frames| ==> Distance(frames[j], upcomingPages) <= Distance(frames[best], upcomingPages);
    VictimUnique(frames, upcomingPages, best);
  }

  /** The simulator: walks the reference string once with a local list of frames. */
  method PageFaults<T(==)>(size: int, pages: seq<T>) returns (pageFaults: nat)
    requires size >= 1
    ensures pageFaults == Faults(size, pages)
    ensures |Elems(pages)| <= pageFaults <= |pages|
    ensures size >= |Elems(pages)| ==> pageFaults == |Elems(pages)|
  {
    pageFaults := 0;
    var frames: seq<T> := [];
    for pageIndex := 0 to |pages|
      invariant Memory(frames, pageFaults) == Run(size, pages, pageIndex)
    {
      var page := pages[pageIndex];
      assert Run(size, pages, pageIndex + 1) ==
        Step(size, Memory(frames, pageFaults), page, pages[pageIndex + 1..]);
      if |frames| < size {
        if page !in frames {
          pageFaults := pageFaults + 1;
          frames := frames + [page];
        }
      } else {
        if page !in frames {
          pageFaults := pageFaults + 1;
          var upcomingPages := pages[pageIndex + 1..];
          var frameToReplace := ChooseVictim(frames, upcomingPages);
          var pos := IndexOf(frames, frameToReplace);
          frames := Remove(frames, frameToReplace);
          frames := Insert(frames, pos, page);
        }
      }
    }
    FaultBounds(size, pages);
  }
}
