/** The per-category bucket of violations, `category` in main.go. */
module Categories {
  import opened Violations

  /** Non-decreasing by entry date: no violation is `Before` an earlier one. */
  ghost predicate Sorted(s: seq<Violation>) {
    forall a, b :: 0 <= a < b < |s| ==> s[a].enteredDate <= s[b].enteredDate
  }

  /** The first `k` violations are in entry-date order. */
  ghost predicate SortedBelow(s: seq<Violation>, k: int) {
    forall a, b :: 0 <= a < b < k && b < |s| ==> s[a].enteredDate <= s[b].enteredDate
  }

  /**
   * The same property by neighbours, from position `i` on. Buckets keep
   * this form in `Valid` so the pairwise quantifier does not spread through
   * every proof that mentions a bucket.
   */
  ghost predicate OrderedFrom(s: seq<Violation>, i: nat)
    decreases |s| - i
  {
    i + 1 >= |s| || (s[i].enteredDate <= s[i + 1].enteredDate && OrderedFrom(s, i + 1))
  }

  ghost predicate Ordered(s: seq<Violation>) {
    OrderedFrom(s, 0)
  }

  lemma {:induction false} OrderedFromIsSorted(s: seq<Violation>, i: nat)
    ensures OrderedFrom(s, i) <==> forall a, b :: i <= a < b < |s| ==> s[a].enteredDate <= s[b].enteredDate
    decreases |s| - i
  {
    if i + 1 < |s| {
      OrderedFromIsSorted(s, i + 1);
      if OrderedFrom(s, i) {
        forall a, b | i <= a < b < |s|
          ensures s[a].enteredDate <= s[b].enteredDate
        {
          if a == i && b > i + 1 {
            assert s[i + 1].enteredDate <= s[b].enteredDate;
          }
        }
      }
    }
  }

  lemma OrderedIsSorted(s: seq<Violation>)
    ensures Ordered(s) <==> Sorted(s)
  {
    OrderedFromIsSorted(s, 0);
  }

  class Category {
    const name: string
    var violations: seq<Violation>

    /** What every bucket the data set builds satisfies: non-empty and sorted. */
    ghost predicate Valid()
      reads this
    {
      |violations| > 0 && Ordered(violations)
    }

    /** `&category{name, []violation{value}}`: a bucket made on the first row of a category. */
    constructor (name: string, first: Violation)
      ensures this.name == name && violations == [first]
      ensures Valid() && Sorted(violations)
      ensures GetEarliest() == first && GetLatest() == first && TotalViolations() == 1
    {
      this.name := name;
      violations := [first];
    }

    /** Appends `v` and re-sorts the whole bucket by entry date. */
    method AddViolation(v: Violation)
      modifies this
      ensures Valid() && Sorted(violations)
      ensures multiset(violations) == multiset(old(violations)) + multiset{v}
      ensures TotalViolations() == old(TotalViolations()) + 1
    {
      violations := violations + [v];
      Sort();
      OrderedIsSorted(violations);
    }

    /** The first violation; on a sorted bucket, one with the least entry date. */
    function GetEarliest(): (r: Violation)
      reads this
      requires |violations| > 0
      ensures r == violations[0]
      ensures Sorted(violations) ==> forall w :: w in violations ==> r.enteredDate <= w.enteredDate
    {
      violations[0]
    }

    /** The last violation; on a sorted bucket, one with the greatest entry date. */
    function GetLatest(): (r: Violation)
      reads this
      requires |violations| > 0
      ensures r == violations[|violations| - 1]
      ensures Sorted(violations) ==> forall w :: w in violations ==> w.enteredDate <= r.enteredDate
    {
      violations[|violations| - 1]
    }

    /** The number of violations in the bucket, defined for an empty bucket too. */
    function TotalViolations(): (n: int)
      reads this
      ensures n == |multiset(violations)|
      ensures Valid() ==> n >= 1
    {
      |violations|
    }

    /** `Len` of Go's `sort.Interface`: the same count the bucket reports publicly. */
    function Len(): (n: int)
      reads this
      ensures n == TotalViolations()
      ensures Valid() ==> n >= 1
    {
      |violations|
    }

    /** `Less` of Go's `sort.Interface`: violation `i` was entered strictly before violation `j`. */
    function Less(i: int, j: int): (r: bool)
      reads this
      requires 0 <= i < |violations| && 0 <= j < |violations|
      ensures r <==> Before(violations[i].enteredDate, violations[j].enteredDate)
      ensures Sorted(violations) && j <= i ==> !r
    {
      violations[i].enteredDate < violations[j].enteredDate
    }

    /** `Swap` of Go's `sort.Interface`: exchanges two positions and nothing else. */
    method Swap(i: int, j: int)
      requires 0 <= i < |violations| && 0 <= j < |violations|
      modifies this
      ensures violations == old(violations)[i := old(violations)[j]][j := old(violations)[i]]
      ensures multiset(violations) == multiset(old(violations))
    {
      violations := violations[i := violations[j]][j := violations[i]];
    }

    /**
     * `sort.Sort(c)`: Go's insertion sort, which `sort.Sort` runs on short
     * inputs, driven by `Len`, `Less` and `Swap`. It is not promised stable.
     */
    method Sort()
      modifies this
      ensures Sorted(violations)
      ensures multiset(violations) == multiset(old(violations))
    {
      var n := Len();
      var i := 1;
      while i < n
        invariant |violations| == n
        invariant 1 <= i && (i <= n || n == 0)
        invariant SortedBelow(violations, if i <= n then i else n)
        invariant multiset(violations) == multiset(old(violations))
      {
        SiftDown(i);
        i := i + 1;
      }
    }

    /**
     * One pass of the outer loop of the insertion sort: swaps violation `i`
     * towards the front while it is `Less` than its neighbour, so the first
     * `i + 1` violations end up in order.
     */
    method SiftDown(i: int)
      requires 0 < i < |violations|
      requires SortedBelow(violations, i)
      modifies this
      ensures |violations| == |old(violations)|
      ensures SortedBelow(violations, i + 1)
      ensures multiset(violations) == multiset(old(violations))
    {
      var j := i;
      while j > 0 && Less(j, j - 1)
        invariant 0 <= j <= i < |violations| == |old(violations)|
        invariant forall a, b :: 0 <= a < b <= i && a != j && b != j ==> violations[a].enteredDate <= violations[b].enteredDate
        invariant forall b :: j < b <= i ==> violations[j].enteredDate <= violations[b].enteredDate
        invariant multiset(violations) == multiset(old(violations))
      {
        Swap(j, j - 1);
        j := j - 1;
      }
    }
  }

  /** Three violations of one category arriving out of order by entry date. */
  method OutOfOrderEntries(first: Violation, second: Violation, third: Violation)
    requires first.enteredDate == 20120501 && second.enteredDate == 20120101 && third.enteredDate == 20120301
  {
    var c := new Category("A", first);
    c.AddViolation(second);
    c.AddViolation(third);
    assert multiset(c.violations) == multiset{first, second, third};
    assert second in c.violations && first in c.violations;
    var earliest, latest := c.GetEarliest(), c.GetLatest();
    assert earliest in multiset(c.violations) && latest in multiset(c.violations);
    assert earliest == second;
    assert latest == first;
    assert c.TotalViolations() == 3;
  }
}
