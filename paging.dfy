/**
 * Vocabulary shared by the three page-replacement simulators: the state a
 * simulator keeps between references, the list operations the simulators
 * use on their resident pages, and the counting argument that bounds the
 * number of page faults of any policy that obeys a few simple step laws.
 */
module Paging {

  datatype Option<T> = None | Some(value: T)

  /**
   * What one simulator keeps while it walks a reference string: the pages
   * resident in the frames, in the order the policy keeps them, and the
   * number of page faults counted so far.
   */
  datatype Memory<T> = Memory(frames: seq<T>, faults: nat)

  /** The state before the first reference: no resident page, no fault. */
  function Start<T>(): (m: Memory<T>)
    ensures m.frames == [] && m.faults == 0
  {
    Memory([], 0)
  }

  /** No page is resident twice. */
  predicate NoDup<T(==)>(s: seq<T>) {
    forall i, j :: 0 <= i < j < |s| ==> s[i] != s[j]
  }

  /** The frames fit in `size` frames and hold each page at most once. */
  predicate Fits<T(==)>(size: int, frames: seq<T>) {
    |frames| <= size && NoDup(frames)
  }

  /** The distinct pages of a sequence. */
  ghost function Elems<T>(s: seq<T>): set<T> {
    set x | x in s
  }

  /** Position of the first occurrence of `x` (the list method `index`). */
  function IndexOf<T(==)>(s: seq<T>, x: T): (i: nat)
    requires x in s
    ensures i < |s| && s[i] == x
    ensures forall j :: 0 <= j < i ==> s[j] != x
  {
    if s[0] == x then 0 else 1 + IndexOf(s[1..], x)
  }

  /**
   * Drops the first occurrence of `x` (the list method `remove`, which the
   * simulators only call on a page they know to be resident).
   */
  function Remove<T(==)>(s: seq<T>, x: T): (r: seq<T>)
    requires x in s
    ensures |r| == |s| - 1
  {
    var i := IndexOf(s, x);
    s[..i] + s[i + 1..]
  }

  /** Leaving out slot `i` drops one copy of `s[i]` and shifts the tail left. */
  lemma DropSlot<T>(s: seq<T>, i: nat, r: seq<T>)
    requires i < |s| && r == s[..i] + s[i + 1..]
    ensures multiset(r) + multiset{s[i]} == multiset(s)
    ensures forall j :: 0 <= j < |r| ==> r[j] == s[if j < i then j else j + 1]
  {
    var a, b := s[..i], s[i + 1..];
    assert s == a + [s[i]] + b;
    assert multiset(s) == multiset(a) + multiset{s[i]} + multiset(b);
  }

  /**
   * `remove` takes out exactly one copy of the page, its first occurrence,
   * and keeps every other entry in order.
   */
  lemma RemoveSpec<T>(s: seq<T>, x: T)
    requires x in s
    ensures multiset(Remove(s, x)) + multiset{x} == multiset(s)
    ensures forall j :: 0 <= j < |Remove(s, x)| ==>
      Remove(s, x)[j] == s[if j < IndexOf(s, x) then j else j + 1]
  {
    DropSlot(s, IndexOf(s, x), Remove(s, x));
  }

  /** Puts `x` at position `pos`, shifting the rest right (the list method `insert`). */
  function Insert<T>(s: seq<T>, pos: nat, x: T): (r: seq<T>)
    requires pos <= |s|
    ensures |r| == |s| + 1 && r[pos] == x
  {
    s[..pos] + [x] + s[pos..]
  }

  /** `insert` leaves the entries before `pos` alone and shifts the rest right by one. */
  lemma InsertSpec<T>(s: seq<T>, pos: nat, x: T)
    requires pos <= |s|
    ensures Insert(s, pos, x)[..pos] == s[..pos]
    ensures Insert(s, pos, x)[pos + 1..] == s[pos..]
  {
    var r := Insert(s, pos, x);
    assert r == s[..pos] + ([x] + s[pos..]);
  }

  lemma NoDupCons<T>(x: T, s: seq<T>)
    requires NoDup(s) && x !in s
    ensures NoDup([x] + s)
  {
    var t := [x] + s;
    forall i, j | 0 <= i < j < |t| ensures t[i] != t[j] {
      assert t[j] == s[j - 1];
      if i > 0 {
        assert t[i] == s[i - 1];
      }
    }
  }

  lemma NoDupSnoc<T>(s: seq<T>, x: T)
    requires NoDup(s) && x !in s
    ensures NoDup(s + [x])
  {
    var t := s + [x];
    forall i, j | 0 <= i < j < |t| ensures t[i] != t[j] {
      assert t[i] == s[i];
      if j < |s| {
        assert t[j] == s[j];
      }
    }
  }

  lemma NoDupSlice<T>(s: seq<T>, a: nat, b: nat)
    requires NoDup(s) && a <= b <= |s|
    ensures NoDup(s[a..b])
  {
    var t := s[a..b];
    forall i, j | 0 <= i < j < |t| ensures t[i] != t[j] {
      assert t[i] == s[a + i] && t[j] == s[a + j];
    }
  }

  /** Leaving out one slot of a sequence without duplicates. */
  lemma NoDupDrop<T>(s: seq<T>, k: nat)
    requires NoDup(s) && k < |s|
    ensures NoDup(s[..k] + s[k + 1..])
    ensures s[k] !in s[..k] + s[k + 1..]
    ensures Elems(s[..k] + s[k + 1..]) == Elems(s) - {s[k]}
  {
    var t := s[..k] + s[k + 1..];
    assert forall i :: 0 <= i < |t| ==> t[i] == s[if i < k then i else i + 1];
    forall i, j | 0 <= i < j < |t| ensures t[i] != t[j] {
      assert t[i] == s[if i < k then i else i + 1];
      assert t[j] == s[if j < k then j else j + 1];
    }
    forall y | y in s && y != s[k] ensures y in t {
      var i :| 0 <= i < |s| && s[i] == y;
      assert y == t[if i < k then i else i - 1];
    }
  }

  /** Removing a resident page of a sequence without duplicates. */
  lemma RemoveResident<T>(s: seq<T>, x: T)
    requires NoDup(s) && x in s
    ensures NoDup(Remove(s, x)) && x !in Remove(s, x)
    ensures Elems(Remove(s, x)) == Elems(s) - {x}
  {
    NoDupDrop(s, IndexOf(s, x));
  }

  /** In a sequence without duplicates, an element's first position is its position. */
  lemma IndexOfNoDup<T>(s: seq<T>, v: nat)
    requires NoDup(s) && v < |s|
    ensures IndexOf(s, s[v]) == v
  {
    var i := IndexOf(s, s[v]);
    assert s[i] == s[v];
  }

  lemma UpdateAsSlices<T>(s: seq<T>, v: nat, p: T)
    requires v < |s|
    ensures s[v := p] == s[..v] + [p] + s[v+1..]
  {
  }

  /**
   * Removing a resident page and inserting a new one where it was is the
   * same as overwriting its slot.
   */
  lemma ReplaceSlot<T>(s: seq<T>, v: nat, p: T)
    requires NoDup(s) && v < |s|
    ensures IndexOf(s, s[v]) == v
    ensures Insert(Remove(s, s[v]), IndexOf(s, s[v]), p) == s[v := p]
  {
    IndexOfNoDup(s, v);
    var r := s[..v] + s[v+1..];
    assert Remove(s, s[v]) == r;
    var t := Insert(r, v, p);
    assert t == r[..v] + [p] + r[v..];
    assert r[..v] == s[..v] && r[v..] == s[v+1..];
    assert t == s[..v] + [p] + s[v+1..];
    UpdateAsSlices(s, v, p);
  }

  lemma ElemsSnoc<T>(s: seq<T>, x: T)
    ensures Elems(s + [x]) == Elems(s) + {x}
  {
    assert forall y :: y in s + [x] <==> y in s || y == x;
  }

  /** A sequence is its prefix, one slot and its suffix. */
  lemma SplitAt<T>(s: seq<T>, i: nat)
    requires i < |s|
    ensures s == s[..i] + ([s[i]] + s[i + 1..])
  {
    assert s[i..] == [s[i]] + s[i + 1..];
    assert s == s[..i] + s[i..];
  }

  lemma ElemsCons<T>(x: T, s: seq<T>)
    ensures Elems([x] + s) == {x} + Elems(s)
  {
    assert forall y :: y in [x] + s <==> y == x || y in s;
  }

  lemma ElemsPrefix<T>(s: seq<T>, n: nat)
    requires n <= |s|
    ensures Elems(s[..n]) <= Elems(s)
  {
    assert forall y :: y in s[..n] ==> y in s;
  }

  lemma SubsetCard<T>(a: set<T>, b: set<T>)
    requires a <= b
    ensures |a| <= |b|
  {
    assert b == a + (b - a);
  }

  /** A sequence without duplicates has as many distinct elements as entries. */
  lemma {:induction false} NoDupCard<T>(s: seq<T>)
    requires NoDup(s)
    ensures |Elems(s)| == |s|
  {
    if s != [] {
      var t, x := s[..|s|-1], s[|s|-1];
      assert s == t + [x];
      assert NoDup(t);
      NoDupCard(t);
      ElemsSnoc(t, x);
      assert x !in t;
    }
  }

  /**
   * The laws one reference obeys under every policy of this model, for a
   * state `m` whose frames fit: a hit costs nothing and keeps the same
   * resident pages; a miss costs one fault; afterwards the page is resident,
   * nothing but the referenced page has come in, the frames still fit, and
   * a miss while a frame is free only adds the page (nothing is evicted).
   */
  ghost predicate StepLaws<T>(size: int, m: Memory<T>, page: T, m': Memory<T>) {
    && (page in m.frames ==> m'.faults == m.faults && Elems(m'.frames) == Elems(m.frames))
    && (page !in m.frames ==> m'.faults == m.faults + 1)
    && (page !in m.frames && |m.frames| < size ==> Elems(m'.frames) == Elems(m.frames) + {page})
    && Elems(m'.frames) <= Elems(m.frames) + {page}
    && page in m'.frames
    && Fits(size, m'.frames)
  }

  /**
   * What is known of a policy's state after it has seen `prefix`: the frames
   * fit and hold only pages already referenced; every distinct page has
   * faulted at least once and no reference faulted twice; and while the
   * distinct pages fit in the frames, the frames hold exactly those pages
   * and every fault was a first reference.
   */
  ghost predicate Counted<T>(size: int, prefix: seq<T>, m: Memory<T>) {
    && Fits(size, m.frames)
    && Elems(m.frames) <= Elems(prefix)
    && |Elems(prefix)| <= m.faults <= |prefix|
    && (|Elems(prefix)| <= size ==> Elems(m.frames) == Elems(prefix) && m.faults == |Elems(prefix)|)
  }

  lemma CountedStart<T>(size: int)
    requires size >= 1
    ensures Counted(size, [], Start<T>())
  {
    assert Elems<T>([]) == {};
  }

  /** One reference that obeys the step laws keeps the count invariant. */
  lemma CountStep<T>(size: int, prefix: seq<T>, page: T, m: Memory<T>, m': Memory<T>)
    requires size >= 1
    requires Counted(size, prefix, m)
    requires StepLaws(size, m, page, m')
    ensures Counted(size, prefix + [page], m')
  {
    var seen, seen' := Elems(prefix), Elems(prefix + [page]);
    ElemsSnoc(prefix, page);
    if page in seen {
      assert seen' == seen;
    } else {
      assert page !in m.frames;
      assert |seen'| == |seen| + 1;
      if |seen'| <= size {
        NoDupCard(m.frames);
        assert |m.frames| == |seen|;
      }
    }
  }

  /**
   * While the distinct pages fit in the frames, a miss always finds a free
   * frame: no eviction can happen.
   */
  lemma MissFindsFreeFrame<T>(size: int, prefix: seq<T>, page: T, m: Memory<T>)
    requires Counted(size, prefix, m)
    requires |Elems(prefix + [page])| <= size
    requires page !in m.frames
    ensures |m.frames| < size
  {
    ElemsSnoc(prefix, page);
    SubsetCard(Elems(prefix), Elems(prefix + [page]));
    NoDupCard(m.frames);
    assert page !in Elems(prefix);
    assert |Elems(prefix)| + 1 == |Elems(prefix + [page])|;
  }
}
