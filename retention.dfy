/**
 * The retention rule of deleteBranchesUpdatedXMonthsAgo: a branch is
 * selected for deletion when its age in 30-day months, truncated toward
 * zero, is at least the threshold, and the name guard lets it through.
 * The guard is modelled as written; it lets every name through.
 */
module Retention {
  import opened Common

  /**
   * One entry of a decoded branch listing. `elapsedHours` is the whole
   * number of hours from the last commit to "now", truncated toward zero,
   * or None when the commit date does not parse as RFC 3339.
   */
  datatype Branch = Branch(name: string, elapsedHours: Option<int>)

  /** A decoded branch listing: the reported size and the entries returned. */
  datatype BranchListing = BranchListing(size: int, values: seq<Branch>)

  const HoursPerMonth: nat := 24 * 30

  /**
   * Whole hours in the largest Go duration (2^63 - 1 nanoseconds).
   * Subtracting the zero time from the current time saturates there.
   */
  const MaxDurationHours: nat := 2562047

  /** The age of a branch whose date did not parse. */
  const SaturatedMonths: int := 3558

  /** Hours to months with a Go integer conversion: truncation toward zero. */
  function MonthsFromHours(hours: int): (months: int)
    ensures hours >= 0 ==> 0 <= months * HoursPerMonth <= hours < (months + 1) * HoursPerMonth
    ensures hours < 0 ==> (months - 1) * HoursPerMonth < hours <= months * HoursPerMonth <= 0
  {
    if hours >= 0 then hours / HoursPerMonth else -((-hours) / HoursPerMonth)
  }

  /** The monthsDiff of a branch; a discarded parse error yields the zero time. */
  function MonthsDiff(b: Branch): (months: int)
    ensures b.elapsedHours.None? ==> months == SaturatedMonths
  {
    match b.elapsedHours
    case Some(h) => MonthsFromHours(h)
    case None => MonthsFromHours(MaxDurationHours)
  }

  /** The name guard as written: `name != "master" || name != "staging"`. */
  function NameGuard(name: string): (passes: bool)
    ensures passes
  {
    name != "master" || name != "staging"
  }

  /** Both conditions under which a branch is deleted. */
  function Selected(b: Branch, months: int): (r: bool)
    ensures r <==> MonthsDiff(b) >= months
  {
    MonthsDiff(b) >= months && NameGuard(b.name)
  }

  /** The branches selected for deletion, in listing order. */
  function Selection(values: seq<Branch>, months: int): (r: seq<Branch>)
    ensures |r| <= |values|
    ensures forall b :: b in r ==> b in values && Selected(b, months)
  {
    if values == [] then []
    else (if Selected(values[0], months) then [values[0]] else []) + Selection(values[1..], months)
  }

  /** Being an entry of the selection is the same as being an old-enough entry of the listing. */
  lemma {:induction false} SelectionMembership(values: seq<Branch>, months: int, b: Branch)
    ensures b in Selection(values, months) <==> b in values && MonthsDiff(b) >= months
  {
    if values != [] {
      SelectionMembership(values[1..], months, b);
      assert values == [values[0]] + values[1..];
    }
  }

  /** Each old-enough entry is selected exactly as many times as it is listed; others never. */
  lemma {:induction false} SelectionCounts(values: seq<Branch>, months: int)
    ensures forall b :: multiset(Selection(values, months))[b]
                     == if MonthsDiff(b) >= months then multiset(values)[b] else 0
  {
    if values != [] {
      SelectionCounts(values[1..], months);
      assert values == [values[0]] + values[1..];
    }
  }

  /** Selection distributes over concatenation, so listing order is kept. */
  lemma {:induction false} SelectionAppend(a: seq<Branch>, b: seq<Branch>, months: int)
    ensures Selection(a + b, months) == Selection(a, months) + Selection(b, months)
  {
    if a == [] {
      assert a + b == b;
    } else {
      assert (a + b)[1..] == a[1..] + b;
      SelectionAppend(a[1..], b, months);
    }
  }

  /**
   * Raising the threshold only drops branches: the selection at the higher
   * threshold is the lower threshold's selection filtered again, in order.
   */
  lemma {:induction false} SelectionAntitone(values: seq<Branch>, lower: int, higher: int)
    requires lower <= higher
    ensures Selection(values, higher) == Selection(Selection(values, lower), higher)
  {
    if values != [] {
      SelectionAntitone(values[1..], lower, higher);
      var ls := Selection(values, lower);
      if Selected(values[0], lower) {
        assert ls[0] == values[0] && ls[1..] == Selection(values[1..], lower);
      } else {
        assert ls == Selection(values[1..], lower);
        assert Selection(values, higher) == Selection(values[1..], higher);
      }
    }
  }

  /** The name never protects a branch: master and staging go when old enough. */
  lemma ProtectedNamesAreSelected(b: Branch, months: int)
    requires b.name == "master" || b.name == "staging"
    ensures Selected(b, months) <==> MonthsDiff(b) >= months
  {
  }

  /** An unparseable date makes a branch selected for every threshold up to 3558 months. */
  lemma UnparseableIsMaximallyOld(b: Branch, parsed: Branch, months: int)
    requires b.elapsedHours.None?
    requires parsed.elapsedHours.Some? && parsed.elapsedHours.value <= MaxDurationHours
    ensures Selected(b, months) <==> months <= SaturatedMonths
    ensures Selected(parsed, months) ==> Selected(b, months)
  {
  }
}
