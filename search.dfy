/** The shape shared by the `handleSearch` functions of the lost and found feeds: a list
    narrowed by up to three successive `filter` calls, each applied only when its search
    field is filled in. */
module Search {
  import opened Seqs
  import opened Strings

  /** The three search fields of the feed forms. */
  datatype Filters = Filters(query: string, kind: string, location: string)

  /** The type filter is on for a type other than "" and "all". */
  predicate TypeActive(f: Filters) {
    f.kind != "" && f.kind != "all"
  }

  /** `hay.toLowerCase().includes(needle.toLowerCase())`. */
  predicate Mentions(hay: string, needle: string) {
    Contains(Lower(hay), Lower(needle))
  }

  /** `if (active) filtered = filtered.filter(p)`. */
  function When<T>(active: bool, s: seq<T>, p: T -> bool): (r: seq<T>)
    ensures active ==> r == Filter(s, p)
    ensures !active ==> r == s
  {
    if active then Filter(s, p) else s
  }

  /** An element passes a step when the step is off or its predicate holds. */
  function Step<T>(active: bool, p: T -> bool): T -> bool {
    x => !active || p(x)
  }

  /** An element passes all three steps. */
  function Every<T>(a1: bool, p1: T -> bool, a2: bool, p2: T -> bool, a3: bool, p3: T -> bool): T -> bool {
    x => Step(a1, p1)(x) && Step(a2, p2)(x) && Step(a3, p3)(x)
  }

  /** A step that is off is the filter that keeps everything. */
  lemma WhenIsFilter<T>(active: bool, s: seq<T>, p: T -> bool)
    ensures When(active, s, p) == Filter(s, Step(active, p))
  {
    if !active {
      FilterAll(s, Step(active, p));
    }
  }

  /** Filtering by a predicate that holds everywhere keeps the whole sequence. */
  lemma {:induction false} FilterAll<T>(s: seq<T>, p: T -> bool)
    requires forall i :: 0 <= i < |s| ==> p(s[i])
    ensures Filter(s, p) == s
  {
    if s != [] {
      FilterAll(s[1..], p);
    }
  }

  /** Three successive optional filters are one filter on the conjunction of their steps. */
  lemma ChainIsOneFilter<T>(s: seq<T>, a1: bool, p1: T -> bool, a2: bool, p2: T -> bool, a3: bool, p3: T -> bool)
    ensures When(a3, When(a2, When(a1, s, p1), p2), p3) == Filter(s, Every(a1, p1, a2, p2, a3, p3))
  {
    var s1 := When(a1, s, p1);
    var s2 := When(a2, s1, p2);
    WhenIsFilter(a1, s, p1);
    WhenIsFilter(a2, s1, p2);
    WhenIsFilter(a3, s2, p3);
    FilterFilter(s, Step(a1, p1), Step(a2, p2));
    var q := (x: T) => Step(a1, p1)(x) && Step(a2, p2)(x);
    FilterFilter(s, q, Step(a3, p3));
    FilterExt(s, (x: T) => q(x) && Step(a3, p3)(x), Every(a1, p1, a2, p2, a3, p3));
  }

  /** The order of the three filters does not matter. */
  lemma ChainCommutes<T>(s: seq<T>, a1: bool, p1: T -> bool, a2: bool, p2: T -> bool, a3: bool, p3: T -> bool)
    ensures When(a3, When(a2, When(a1, s, p1), p2), p3) == When(a1, When(a2, When(a3, s, p3), p2), p1)
  {
    ChainIsOneFilter(s, a1, p1, a2, p2, a3, p3);
    ChainIsOneFilter(s, a3, p3, a2, p2, a1, p1);
    FilterExt(s, Every(a1, p1, a2, p2, a3, p3), Every(a3, p3, a2, p2, a1, p1));
  }
}
