/** A focus mixture is a partition of its interval: shares sum to one, and grouping the
    applications by category gives the category shares. */
module FocusSums {
  import opened Sums
  import opened Timelines

  function ChangesInside(marks: seq<Mark>, start: int, end: int): set<nat> {
    set i | 0 <= i < |marks| && start < marks[i].t < end
  }

  /** The switches of a mixture are the focus changes strictly inside its interval. */
  lemma {:induction false} SwitchesAreInside(marks: seq<Mark>, start: int, end: int)
    ensures |ChangesInside(marks, start, end)| == SwitchesBetween(marks, start, end)
  {
    if marks != [] {
      var before := marks[..|marks| - 1];
      SwitchesAreInside(before, start, end);
      var last := |marks| - 1;
      var now, earlier := ChangesInside(marks, start, end), ChangesInside(before, start, end);
      if start < marks[last].t < end {
        assert now == earlier + {last};
      } else {
        assert now == earlier;
      }
    }
  }

  // How many instants of [start, end) are held by one of the keys.
  function Covered(marks: seq<Mark>, start: int, end: int, keys: set<Focus>): nat
    decreases end - start
  {
    if end <= start then 0
    else Covered(marks, start, end - 1, keys) + if ActiveAt(marks, end - 1) in keys then 1 else 0
  }

  ghost function OccupancyOf(marks: seq<Mark>, start: int, end: int): Focus -> real {
    f => Occupancy(marks, start, end, f) as real
  }

  lemma {:induction false} OccupanciesAddUp(marks: seq<Mark>, start: int, end: int, keys: set<Focus>)
    ensures Sum(keys, OccupancyOf(marks, start, end)) == Covered(marks, start, end, keys) as real
    decreases end - start
  {
    var now := OccupancyOf(marks, start, end);
    if end <= start {
      SumOfZero(keys, now);
    } else {
      var before := OccupancyOf(marks, start, end - 1);
      OccupanciesAddUp(marks, start, end - 1, keys);
      var active := ActiveAt(marks, end - 1);
      if active in keys {
        SumChanges(keys, before, now, active);
      } else {
        SumOfEqual(keys, before, now);
      }
    }
  }

  lemma {:induction false} CoveredByAll(marks: seq<Mark>, start: int, end: int, keys: set<Focus>)
    requires start <= end
    requires forall x :: start <= x < end ==> ActiveAt(marks, x) in keys
    ensures Covered(marks, start, end, keys) == end - start
    decreases end - start
  {
    if start < end {
      CoveredByAll(marks, start, end - 1, keys);
    }
  }

  lemma {:induction false} CoveredByCategory(marks: seq<Mark>, start: int, end: int, keys: set<Focus>, c: Category)
    requires forall x :: start <= x < end ==> (ActiveAt(marks, x) in keys <==> ActiveAt(marks, x).category == c)
    ensures Covered(marks, start, end, keys) == CategoryOccupancy(marks, start, end, c)
    decreases end - start
  {
    if start < end {
      CoveredByCategory(marks, start, end - 1, keys, c);
    }
  }

  lemma {:induction false} ActiveIsCounted(marks: seq<Mark>, start: int, end: int, x: int)
    requires start <= x < end
    ensures Occupancy(marks, start, end, ActiveAt(marks, x)) > 0
    decreases end - start
  {
    if x < end - 1 {
      ActiveIsCounted(marks, start, end - 1, x);
    }
  }

  ghost function AppShare(m: Mixture): Focus -> real {
    f => if f in m.apps then m.apps[f] else 0.0
  }

  ghost function CategoryShare(m: Mixture, c: Category): real {
    if c in m.categories then m.categories[c] else 0.0
  }

  ghost function AppsOf(m: Mixture, c: Category): set<Focus> {
    set f | f in m.apps.Keys && f.category == c
  }

  lemma SharesAreScaled(marks: seq<Mark>, start: int, end: int, m: Mixture, keys: set<Focus>)
    requires start < end && IsMixture(marks, start, end, m) && keys <= m.apps.Keys
    ensures Sum(keys, AppShare(m)) == Share(Covered(marks, start, end, keys), end - start)
  {
    SumOfQuotients(keys, OccupancyOf(marks, start, end), AppShare(m), (end - start) as real);
    OccupanciesAddUp(marks, start, end, keys);
  }

  /** Both mixtures of every interval account for exactly one unit of focus, and a
      category's share is the sum of its applications' shares. */
  lemma MixtureIsAPartition(marks: seq<Mark>, start: int, end: int, m: Mixture, c: Category)
    requires IsMixture(marks, start, end, m)
    ensures Sum(m.apps.Keys, AppShare(m)) == 1.0
    ensures Sum(AppsOf(m, c), AppShare(m)) == CategoryShare(m, c)
  {
    var keys := AppsOf(m, c);
    if start < end {
      forall x | start <= x < end ensures ActiveAt(marks, x) in m.apps.Keys {
        ActiveIsCounted(marks, start, end, x);
      }
      SharesAreScaled(marks, start, end, m, m.apps.Keys);
      CoveredByAll(marks, start, end, m.apps.Keys);
      WholeShare(end - start);
      SharesAreScaled(marks, start, end, m, keys);
      CoveredByCategory(marks, start, end, keys, c);
      assert CategoryShare(m, c) == Share(CategoryOccupancy(marks, start, end, c), end - start);
    } else {
      var active := ActiveAt(marks, start);
      assert m.apps.Keys == {active};
      SumOut(m.apps.Keys, AppShare(m), active);
      if active.category == c {
        assert keys == {active};
      } else {
        assert keys == {};
      }
    }
  }

  /** The category shares sum to one as well. */
  lemma CategoriesAreAPartition(marks: seq<Mark>, start: int, end: int, m: Mixture)
    requires IsMixture(marks, start, end, m)
    ensures Sum(m.categories.Keys, c => CategoryShare(m, c)) == 1.0
  {
    var share := c => CategoryShare(m, c);
    if start < end {
      var occupancy := c => CategoryOccupancy(marks, start, end, c) as real;
      SumOfQuotients(m.categories.Keys, occupancy, share, (end - start) as real);
      CategoriesCoverAll(marks, start, end, m.categories.Keys, occupancy);
      WholeShare(end - start);
    } else {
      var active := ActiveAt(marks, start).category;
      assert m.categories.Keys == {active};
      SumOut(m.categories.Keys, share, active);
    }
  }

  lemma {:induction false} CategoriesCoverAll(marks: seq<Mark>, start: int, end: int, keys: set<Category>,
                                              occupancy: Category -> real)
    requires start <= end
    requires forall c :: occupancy(c) == CategoryOccupancy(marks, start, end, c) as real
    requires forall c :: CategoryOccupancy(marks, start, end, c) > 0 ==> c in keys
    ensures Sum(keys, occupancy) == (end - start) as real
    decreases end - start
  {
    if start == end {
      SumOfZero(keys, occupancy);
    } else {
      var before := c => CategoryOccupancy(marks, start, end - 1, c) as real;
      CategoriesCoverAll(marks, start, end - 1, keys, before);
      SumChanges(keys, before, occupancy, ActiveAt(marks, end - 1).category);
    }
  }
}
