/** A binary search for the last size under a limit, over sizes that need not be sorted:
    what it finds, and exactly when that is the largest index that fits for every limit. */
module Bisection {
  import opened Numbers
  import opened Results

  /** The search: the upper middle is tried, and the half it points to is kept. */
  function Find(sizes: seq<nat>, limit: int, lo: nat, hi: nat): (r: nat)
    requires lo <= hi < |sizes|
    ensures lo <= r <= hi
    decreases hi - lo
  {
    if hi == lo then lo
    else
      var mid := (lo + hi + 1) / 2;
      if sizes[mid] <= limit then Find(sizes, limit, mid, hi) else Find(sizes, limit, lo, mid - 1)
  }

  /** What the search answers once the found index is tried itself. */
  function Answer(sizes: seq<nat>, limit: int): Option<nat>
    requires sizes != []
  {
    var found := Find(sizes, limit, 0, |sizes| - 1);
    if sizes[found] <= limit then Some(found) else None
  }

  /** Whatever the sizes: an index that was found fits unless it is the first, and the one
      after it does not fit unless there is none. */
  lemma {:induction false} FoundIsAnEdge(sizes: seq<nat>, limit: int, lo: nat, hi: nat)
    requires lo <= hi < |sizes|
    ensures var r := Find(sizes, limit, lo, hi);
            && (r == lo || sizes[r] <= limit)
            && (r == hi || sizes[r + 1] > limit)
    decreases hi - lo
  {
    if lo == hi {
    } else {
      var mid := (lo + hi + 1) / 2;
      assert lo < mid <= hi;
      if sizes[mid] <= limit {
        FoundIsAnEdge(sizes, limit, mid, hi);
      } else {
        FoundIsAnEdge(sizes, limit, lo, mid - 1);
      }
    }
  }

  /** Nothing after the answer fits; without one, nothing fits. */
  predicate IsLargest(sizes: seq<nat>, limit: int, answer: Option<nat>) {
    && (answer.Some? ==> answer.value < |sizes| && sizes[answer.value] <= limit)
    && forall k | 0 <= k < |sizes| :: sizes[k] <= limit ==> answer.Some? && k <= answer.value
  }

  function Smaller(cap: Option<nat>, size: nat): nat {
    if cap.Some? then Min(cap.value, size) else size
  }

  /** No limit from `floor` up to before `cap` lies under the probe's size and fits a later index. */
  predicate HidesNothing(sizes: seq<nat>, mid: nat, hi: nat, floor: nat, cap: Option<nat>)
    requires mid <= hi < |sizes|
  {
    forall k | mid < k <= hi :: Smaller(cap, sizes[mid]) <= Max(floor, sizes[k])
  }

  /** Along the tree of all probes, each with the limits that lead to its range, no probe
      hides a later size. */
  predicate NoProbeHides(sizes: seq<nat>, lo: nat, hi: nat, floor: nat, cap: Option<nat>)
    requires hi < |sizes|
    decreases hi - lo
  {
    hi <= lo
    || var mid := (lo + hi + 1) / 2;
       && HidesNothing(sizes, mid, hi, floor, cap)
       && NoProbeHides(sizes, mid, hi, Max(floor, sizes[mid]), cap)
       && NoProbeHides(sizes, lo, mid - 1, floor, Some(Smaller(cap, sizes[mid])))
  }

  /** A limit that leads to the range. */
  predicate LeadsHere(limit: int, floor: nat, cap: Option<nat>) {
    floor <= limit && (cap.Some? ==> limit < cap.value)
  }

  lemma NothingHidden(sizes: seq<nat>, mid: nat, hi: nat, floor: nat, cap: Option<nat>, limit: int, k: nat)
    requires mid <= hi < |sizes| && k <= hi && HidesNothing(sizes, mid, hi, floor, cap)
    requires LeadsHere(limit, floor, cap) && sizes[k] <= limit < sizes[mid]
    ensures k < mid
  {
  }

  lemma {:induction false} SoundBelow(sizes: seq<nat>, lo: nat, hi: nat, floor: nat, cap: Option<nat>, limit: int,
                                      k: nat)
    requires lo <= hi < |sizes| && lo <= k <= hi && sizes[k] <= limit
    requires NoProbeHides(sizes, lo, hi, floor, cap) && LeadsHere(limit, floor, cap)
    ensures k <= Find(sizes, limit, lo, hi)
    decreases hi - lo
  {
    hide HidesNothing;
    if lo == hi {
    } else {
      var mid := (lo + hi + 1) / 2;
      if sizes[mid] <= limit {
        if mid <= k { SoundBelow(sizes, mid, hi, Max(floor, sizes[mid]), cap, limit, k); }
      } else {
        NothingHidden(sizes, mid, hi, floor, cap, limit, k);
        SoundBelow(sizes, lo, mid - 1, floor, Some(Smaller(cap, sizes[mid])), limit, k);
      }
    }
  }

  /** The probe at `mid` hides a later size from the limit that size just fits. */
  lemma HiddenHere(sizes: seq<nat>, lo: nat, mid: nat, hi: nat, floor: nat, cap: Option<nat>)
    returns (limit: nat, k: nat)
    requires lo < mid <= hi < |sizes| && mid == (lo + hi + 1) / 2 && !HidesNothing(sizes, mid, hi, floor, cap)
    ensures LeadsHere(limit, floor, cap) && lo <= k <= hi && sizes[k] <= limit
    ensures Find(sizes, limit, lo, hi) < k
  {
    k :| mid < k <= hi && Smaller(cap, sizes[mid]) > Max(floor, sizes[k]);
    limit := Max(floor, sizes[k]);
    assert sizes[mid] > limit;
    assert Find(sizes, limit, lo, hi) == Find(sizes, limit, lo, mid - 1);
  }

  /** A probe that hides something hides it at some limit. */
  lemma {:induction false} HiddenSomewhere(sizes: seq<nat>, lo: nat, hi: nat, floor: nat, cap: Option<nat>)
    returns (limit: nat, k: nat)
    requires lo <= hi < |sizes| && !NoProbeHides(sizes, lo, hi, floor, cap)
    ensures LeadsHere(limit, floor, cap) && lo <= k <= hi && sizes[k] <= limit
    ensures Find(sizes, limit, lo, hi) < k
    decreases hi - lo
  {
    hide HidesNothing;
    var mid := (lo + hi + 1) / 2;
    assert lo < mid <= hi;
    if !HidesNothing(sizes, mid, hi, floor, cap) {
      limit, k := HiddenHere(sizes, lo, mid, hi, floor, cap);
    } else {
      if !NoProbeHides(sizes, mid, hi, Max(floor, sizes[mid]), cap) {
        limit, k := HiddenSomewhere(sizes, mid, hi, Max(floor, sizes[mid]), cap);
      } else {
        limit, k := HiddenSomewhere(sizes, lo, mid - 1, floor, Some(Smaller(cap, sizes[mid])));
      }
    }
  }

  /** What is found fits as soon as some index up to it does. */
  lemma {:induction false} FoundFits(sizes: seq<nat>, limit: int, lo: nat, hi: nat, k: nat)
    requires lo <= hi < |sizes| && lo <= k <= Find(sizes, limit, lo, hi) && sizes[k] <= limit
    ensures sizes[Find(sizes, limit, lo, hi)] <= limit
    decreases hi - lo
  {
    if lo == hi {
    } else {
      var mid := (lo + hi + 1) / 2;
      if sizes[mid] <= limit {
        FoundFits(sizes, limit, mid, hi, mid);
      } else {
        FoundFits(sizes, limit, lo, mid - 1, k);
      }
    }
  }

  /** The search answers the largest index that fits, whatever the limit, exactly when no
      probe hides a later size: sizes that rise suffice, but are not needed. */
  lemma LargestForEveryLimit(sizes: seq<nat>)
    requires sizes != []
    ensures (forall limit: int :: IsLargest(sizes, limit, Answer(sizes, limit)))
            <==> NoProbeHides(sizes, 0, |sizes| - 1, 0, None)
  {
    var hi := |sizes| - 1;
    if NoProbeHides(sizes, 0, hi, 0, None) {
      forall limit: int ensures IsLargest(sizes, limit, Answer(sizes, limit)) {
        forall k | 0 <= k < |sizes| && sizes[k] <= limit
          ensures Answer(sizes, limit).Some? && k <= Answer(sizes, limit).value
        {
          SoundBelow(sizes, 0, hi, 0, None, limit, k);
          FoundFits(sizes, limit, 0, hi, k);
        }
      }
    } else {
      var limit, k := HiddenSomewhere(sizes, 0, hi, 0, None);
      assert !IsLargest(sizes, limit, Answer(sizes, limit));
    }
  }

  predicate Rising(sizes: seq<nat>) {
    forall i, j | 0 <= i <= j < |sizes| :: sizes[i] <= sizes[j]
  }

  lemma RisingProbe(sizes: seq<nat>, mid: nat, hi: nat, floor: nat, cap: Option<nat>)
    requires mid <= hi < |sizes| && Rising(sizes)
    ensures HidesNothing(sizes, mid, hi, floor, cap)
  {
  }

  /** Sizes that never fall hide nothing. */
  lemma {:induction false} RisingHidesNothing(sizes: seq<nat>, lo: nat, hi: nat, floor: nat, cap: Option<nat>)
    requires hi < |sizes| && Rising(sizes)
    ensures NoProbeHides(sizes, lo, hi, floor, cap)
    decreases hi - lo
  {
    hide HidesNothing, Rising, Smaller;
    if lo >= hi {
    } else {
      var mid := (lo + hi + 1) / 2;
      assert HidesNothing(sizes, mid, hi, floor, cap) by { RisingProbe(sizes, mid, hi, floor, cap); }
      RisingHidesNothing(sizes, mid, hi, Max(floor, sizes[mid]), cap);
      RisingHidesNothing(sizes, lo, mid - 1, floor, Some(Smaller(cap, sizes[mid])));
    }
  }
}
