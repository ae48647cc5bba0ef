/** The focus timeline: who holds the foreground, and for how much of an interval. */
module Timelines {
  import opened Wrappers
  import opened Sums
  import opened Sorting

  datatype Category = Productivity | Browsing | Development | Creative | Gaming | System | UnknownCategory

  /** A foreground application and the category it was reported with. */
  datatype Focus = Focus(appId: nat, category: Category)

  // The focus of an instant that no focus change precedes.
  const Unattributed := Focus(0, UnknownCategory)

  datatype Mark = Mark(t: int, focus: Focus)

  ghost predicate Sorted(marks: seq<Mark>) {
    forall i, j :: 0 <= i < j < |marks| ==> marks[i].t <= marks[j].t
  }

  /** The focus at an instant: that of the last change at or before it. */
  function ActiveAt(marks: seq<Mark>, x: int): Focus {
    if marks == [] then Unattributed
    else if marks[|marks| - 1].t <= x then marks[|marks| - 1].focus
    else ActiveAt(marks[..|marks| - 1], x)
  }

  /** How many instants of [start, end) a focus holds the foreground. */
  function Occupancy(marks: seq<Mark>, start: int, end: int, f: Focus): nat
    decreases end - start
  {
    if end <= start then 0
    else Occupancy(marks, start, end - 1, f) + if ActiveAt(marks, end - 1) == f then 1 else 0
  }

  function CategoryOccupancy(marks: seq<Mark>, start: int, end: int, c: Category): nat
    decreases end - start
  {
    if end <= start then 0
    else CategoryOccupancy(marks, start, end - 1, c) + if ActiveAt(marks, end - 1).category == c then 1 else 0
  }

  function SwitchesBetween(marks: seq<Mark>, start: int, end: int): nat {
    if marks == [] then 0
    else SwitchesBetween(marks[..|marks| - 1], start, end)
         + if start < marks[|marks| - 1].t < end then 1 else 0
  }

  datatype Mixture = Mixture(categories: map<Category, real>, apps: map<Focus, real>, switches: nat)

  /** What a mixture must say about an interval: for every focus and every category the
      exact share of the interval's instants it holds, and the changes strictly inside.
      A degenerate interval is credited to the focus active at its start. */
  ghost predicate IsMixture(marks: seq<Mark>, start: int, end: int, m: Mixture) {
    && m.switches == SwitchesBetween(marks, start, end)
    && if start < end then
         && (forall f :: f in m.apps <==> Occupancy(marks, start, end, f) > 0)
         && (forall f :: f in m.apps ==> m.apps[f] == Share(Occupancy(marks, start, end, f), end - start))
         && (forall c :: c in m.categories <==> CategoryOccupancy(marks, start, end, c) > 0)
         && (forall c :: c in m.categories ==>
               m.categories[c] == Share(CategoryOccupancy(marks, start, end, c), end - start))
       else
         && m.apps == map[ActiveAt(marks, start) := 1.0]
         && m.categories == map[ActiveAt(marks, start).category := 1.0]
  }

  function Share(part: nat, whole: int): real
    requires whole != 0
  {
    Quotient(part as real, whole as real)
  }

  /** Those requirements leave no freedom. */
  lemma MixtureIsUnique(marks: seq<Mark>, start: int, end: int, a: Mixture, b: Mixture)
    requires IsMixture(marks, start, end, a) && IsMixture(marks, start, end, b)
    ensures a == b
  {
    if start < end {
      assert a.apps.Keys == b.apps.Keys;
      assert a.categories.Keys == b.categories.Keys;
      assert a.apps == b.apps && a.categories == b.categories;
    }
  }

  // ---------------------------------------------------------------------
  // Context events
  // ---------------------------------------------------------------------

  datatype ContextEvent = ContextEvent(t: int, sequence: int, focus: Focus)

  function ContextKey(): ContextEvent -> Key {
    (c: ContextEvent) => Key(c.t, c.sequence)
  }

  function MarksOf(events: seq<ContextEvent>): (marks: seq<Mark>)
    ensures |marks| == |events|
    ensures forall i :: 0 <= i < |marks| ==> marks[i] == Mark(events[i].t, events[i].focus)
    ensures Ascending(events, ContextKey()) ==> Sorted(marks)
  {
    var marks := seq(|events|, i requires 0 <= i < |events| => Mark(events[i].t, events[i].focus));
    assert Ascending(events, ContextKey()) ==> Sorted(marks) by {
      if Ascending(events, ContextKey()) {
        forall i, j | 0 <= i < j < |events| ensures events[i].t <= events[j].t {
          assert !KeyLess(ContextKey()(events[j]), ContextKey()(events[i]));
        }
      }
    }
    marks
  }

  // ---------------------------------------------------------------------
  // The timeline object
  // ---------------------------------------------------------------------

  function BisectRight(starts: seq<int>, x: int): (index: nat)
    ensures index <= |starts|
    ensures index > 0 ==> starts[index - 1] <= x
    ensures forall i :: index <= i < |starts| ==> starts[i] > x
  {
    if starts == [] then 0
    else if starts[|starts| - 1] <= x then |starts|
    else BisectRight(starts[..|starts| - 1], x)
  }

  function Inserted<T>(xs: seq<T>, i: nat, x: T): seq<T>
    requires i <= |xs|
  {
    xs[..i] + [x] + xs[i..]
  }

  function Added(marks: seq<Mark>, mark: Mark): seq<Mark> {
    Inserted(marks, BisectRight(Starts(marks), mark.t), mark)
  }

  function Starts(marks: seq<Mark>): seq<int> {
    seq(|marks|, i requires 0 <= i < |marks| => marks[i].t)
  }

  function Zipped(starts: seq<int>, categories: seq<Category>, appIds: seq<nat>): (marks: seq<Mark>)
    requires |starts| == |categories| == |appIds|
    ensures |marks| == |starts|
    ensures forall i :: 0 <= i < |marks| ==> marks[i] == Mark(starts[i], Focus(appIds[i], categories[i]))
  {
    seq(|starts|, i requires 0 <= i < |starts| => Mark(starts[i], Focus(appIds[i], categories[i])))
  }

  class ContextTimeline {
    var starts: seq<int>
    var categories: seq<Category>
    var appIds: seq<nat>

    ghost predicate Valid()
      reads this
    {
      |starts| == |categories| == |appIds| && Sorted(Marks())
    }

    function Marks(): seq<Mark>
      requires |starts| == |categories| == |appIds|
      reads this
    {
      Zipped(starts, categories, appIds)
    }

    constructor (contextEvents: seq<ContextEvent>)
      ensures Valid() && Marks() == MarksOf(Sort(contextEvents, ContextKey()))
    {
      SortIsAscendingPermutation(contextEvents, ContextKey());
      var ordered := MarksOf(Sort(contextEvents, ContextKey()));
      starts := Starts(ordered);
      categories := seq(|ordered|, i requires 0 <= i < |ordered| => ordered[i].focus.category);
      appIds := seq(|ordered|, i requires 0 <= i < |ordered| => ordered[i].focus.appId);
      new;
      assert Marks() == ordered;
    }

    method Add(mark: Mark)
      requires Valid()
      modifies this
      ensures Valid() && Marks() == Added(old(Marks()), mark)
    {
      ghost var before := Marks();
      var index := BisectRight(starts, mark.t);
      InsertedTogether(starts, categories, appIds, index, mark);
      starts := Inserted(starts, index, mark.t);
      categories := Inserted(categories, index, mark.focus.category);
      appIds := Inserted(appIds, index, mark.focus.appId);
      AddedIsSorted(before, mark);
      assert Marks() == Added(before, mark);
    }

    method FocusShares(start: int, end: int) returns (m: Mixture)
      requires Valid()
      ensures IsMixture(Marks(), start, end, m)
    {
      var duration := if end - start > 1 then end - start else 1;
      if starts == [] {
        NothingRecorded(start, end);
        return Mixture(map[UnknownCategory := 1.0], map[Unattributed := 1.0], 0);
      }
      var totals, appTotals, active, switches := Sweep(start, end);
      if totals == map[] {
        NonemptyTally(Marks(), start, end, totals, appTotals);
        return Mixture(map[active.category := 1.0], map[active := 1.0], switches);
      }
      var fractions := map c | c in totals :: Share(totals[c], duration);
      var appFractions := map f | f in appTotals :: Share(appTotals[f], duration);
      return Mixture(fractions, appFractions, switches);
    }

    // The changes strictly inside the interval, each closing the stretch before it.
    method SweepChanges(start: int, end: int, idx: nat)
      returns (totals: map<Category, nat>, appTotals: map<Focus, nat>, active: Focus, switches: nat, cursor: int,
               ghost j: nat)
      requires Valid() && idx <= |starts|
      requires forall i :: 0 <= i < idx ==> starts[i] <= start
      requires forall i :: idx <= i < |starts| ==> start < starts[i]
      ensures Reaches(Marks(), idx, j, start, end, cursor, active, switches)
      ensures Tallies(Marks(), start, cursor, totals, appTotals)
      ensures j < |starts| ==> end <= starts[j]
      ensures start >= end ==> j == idx && totals == map[] && active == ActiveAt(Marks(), start)
    {
      ghost var marks := Marks();
      active := if idx > 0 then Focus(appIds[idx - 1], categories[idx - 1]) else Unattributed;
      cursor, totals, appTotals, switches := start, map[], map[], 0;
      var next := idx;
      BeginsWithNothing(marks, idx, start, end, active);
      while next < |starts| && starts[next] < end
        invariant Reaches(marks, idx, next, start, end, cursor, active, switches)
        invariant Tallies(marks, start, cursor, totals, appTotals)
        invariant next == idx ==> totals == map[] && active == ActiveAt(marks, start)
      {
        assert marks[next] == Mark(starts[next], Focus(appIds[next], categories[next]));
        totals, appTotals := CreditStretch(totals, appTotals, active, start, cursor, starts[next], next);
        ReachesNext(marks, idx, next, start, end, cursor, active, switches);
        active := Focus(appIds[next], categories[next]);
        cursor, switches, next := starts[next], switches + 1, next + 1;
      }
      j := next;
    }

    /** Walks the changes of the interval, crediting each stretch to the focus active in it. */
    method Sweep(start: int, end: int)
      returns (totals: map<Category, nat>, appTotals: map<Focus, nat>, active: Focus, switches: nat)
      requires Valid()
      ensures start < end ==> Tallies(Marks(), start, end, totals, appTotals)
      ensures start >= end ==> totals == map[] && active == ActiveAt(Marks(), start)
      ensures switches == SwitchesBetween(Marks(), start, end)
    {
      var idx := BisectRight(starts, start);
      var cursor;
      ghost var j;
      totals, appTotals, active, switches, cursor, j := SweepChanges(start, end, idx);
      NoSwitchAfter(Marks(), j, start, end);
      if cursor < end {
        totals, appTotals := CreditStretch(totals, appTotals, active, start, cursor, end, j);
      }
    }

    method CreditStretch(totals: map<Category, nat>, appTotals: map<Focus, nat>, active: Focus,
                         ghost start: int, cursor: int, next: int, ghost j: nat)
      returns (totals': map<Category, nat>, appTotals': map<Focus, nat>)
      requires Valid() && start <= cursor <= next && j <= |starts|
      requires active == if j > 0 then Marks()[j - 1].focus else Unattributed
      requires j > 0 ==> Marks()[j - 1].t <= cursor
      requires j < |starts| ==> next <= Marks()[j].t
      requires Tallies(Marks(), start, cursor, totals, appTotals)
      ensures Tallies(Marks(), start, next, totals', appTotals')
      ensures next == cursor ==> totals' == totals
    {
      totals', appTotals' := totals, appTotals;
      if next > cursor {
        ActiveInSpan(Marks(), j, cursor, next);
        SpanTallies(Marks(), start, cursor, next, totals, appTotals, active);
        var span := next - cursor;
        totals', appTotals' := Credit(totals, active.category, span), Credit(appTotals, active, span);
      }
    }

    lemma NothingRecorded(start: int, end: int)
      requires Valid() && starts == []
      ensures IsMixture(Marks(), start, end, Mixture(map[UnknownCategory := 1.0], map[Unattributed := 1.0], 0))
    {
      if start < end {
        SpanTallies([], start, start, end, map[], map[], Unattributed);
        WholeShare(end - start);
      }
    }
  }

  // The sweep stands at a change inside the interval, or still at its start.
  ghost predicate Reaches(marks: seq<Mark>, idx: nat, j: nat, start: int, end: int, cursor: int, active: Focus,
                          switches: nat) {
    && idx <= j <= |marks| && start <= cursor
    && (j == idx ==> cursor == start)
    && (j > idx ==> start < cursor < end)
    && active == (if j > 0 then marks[j - 1].focus else Unattributed)
    && (j > 0 ==> marks[j - 1].t <= cursor)
    && (j < |marks| ==> cursor <= marks[j].t)
    && switches == SwitchesBetween(marks[..j], start, end)
  }

  // Where the sweep begins: at the change active at the start, with nothing credited.
  lemma BeginsWithNothing(marks: seq<Mark>, idx: nat, start: int, end: int, active: Focus)
    requires Sorted(marks) && idx <= |marks|
    requires forall i :: 0 <= i < idx ==> marks[i].t <= start
    requires forall i :: idx <= i < |marks| ==> start < marks[i].t
    requires active == if idx > 0 then marks[idx - 1].focus else Unattributed
    ensures ActiveAt(marks, start) == active
    ensures Reaches(marks, idx, idx, start, end, start, active, 0)
    ensures Tallies(marks, start, start, map[], map[])
  {
    ActiveIs(marks, idx, start);
    NoSwitchBefore(marks, idx, start, end);
  }

  lemma ReachesNext(marks: seq<Mark>, idx: nat, j: nat, start: int, end: int, cursor: int, active: Focus, switches: nat)
    requires Sorted(marks) && Reaches(marks, idx, j, start, end, cursor, active, switches)
    requires j < |marks| && start < marks[j].t < end
    ensures Reaches(marks, idx, j + 1, start, end, marks[j].t, marks[j].focus, switches + 1)
  {
    assert marks[..j + 1][..j] == marks[..j];
  }

  // Inserting into the three lists at one place inserts the mark they stand for.
  lemma InsertedTogether(starts: seq<int>, categories: seq<Category>, appIds: seq<nat>, i: nat, mark: Mark)
    requires |starts| == |categories| == |appIds| && i <= |starts|
    ensures Zipped(Inserted(starts, i, mark.t), Inserted(categories, i, mark.focus.category), Inserted(appIds, i, mark.focus.appId))
            == Inserted(Zipped(starts, categories, appIds), i, mark)
    ensures Starts(Zipped(starts, categories, appIds)) == starts
  {
  }

  // Every instant is credited to somebody.
  lemma NonemptyTally(marks: seq<Mark>, start: int, end: int, totals: map<Category, nat>, appTotals: map<Focus, nat>)
    requires start < end ==> Tallies(marks, start, end, totals, appTotals)
    ensures start < end ==> totals != map[]
  {
    if start < end {
      assert CategoryOccupancy(marks, start, end, ActiveAt(marks, end - 1).category) > 0;
    }
  }

  function Credit<K>(totals: map<K, nat>, key: K, span: nat): map<K, nat> {
    totals[key := span + if key in totals then totals[key] else 0]
  }

  // The totals are the occupancies of [start, cursor), zero entries left out.
  ghost predicate Tallies(marks: seq<Mark>, start: int, cursor: int, totals: map<Category, nat>,
                          appTotals: map<Focus, nat>) {
    && (forall f :: Occupancy(marks, start, cursor, f) == if f in appTotals then appTotals[f] else 0)
    && (forall f :: f in appTotals ==> appTotals[f] > 0)
    && (forall c :: CategoryOccupancy(marks, start, cursor, c) == if c in totals then totals[c] else 0)
    && (forall c :: c in totals ==> totals[c] > 0)
  }

  // ---------------------------------------------------------------------
  // Lemmas about spans
  // ---------------------------------------------------------------------

  // Between two consecutive changes the focus is that of the first.
  lemma {:induction false} ActiveIs(marks: seq<Mark>, j: nat, x: int)
    requires Sorted(marks) && j <= |marks|
    requires j > 0 ==> marks[j - 1].t <= x
    requires j < |marks| ==> x < marks[j].t
    ensures ActiveAt(marks, x) == if j > 0 then marks[j - 1].focus else Unattributed
    decreases |marks|
  {
    if j < |marks| {
      assert x < marks[|marks| - 1].t;
      ActiveIs(marks[..|marks| - 1], j, x);
    }
  }

  lemma ActiveInSpan(marks: seq<Mark>, j: nat, start: int, end: int)
    requires Sorted(marks) && j <= |marks|
    requires j > 0 ==> marks[j - 1].t <= start
    requires j < |marks| ==> end <= marks[j].t
    ensures forall x :: start <= x < end ==> ActiveAt(marks, x) == if j > 0 then marks[j - 1].focus else Unattributed
  {
    forall x | start <= x < end
      ensures ActiveAt(marks, x) == if j > 0 then marks[j - 1].focus else Unattributed
    {
      ActiveIs(marks, j, x);
    }
  }

  lemma {:induction false} SpanOccupancy(marks: seq<Mark>, start: int, middle: int, end: int, active: Focus, f: Focus)
    requires start <= middle <= end
    requires forall x :: middle <= x < end ==> ActiveAt(marks, x) == active
    ensures Occupancy(marks, start, end, f) == Occupancy(marks, start, middle, f) + if f == active then end - middle else 0
    decreases end - middle
  {
    if middle < end {
      SpanOccupancy(marks, start, middle, end - 1, active, f);
    }
  }

  lemma {:induction false} SpanCategoryOccupancy(marks: seq<Mark>, start: int, middle: int, end: int, active: Focus,
                                                 c: Category)
    requires start <= middle <= end
    requires forall x :: middle <= x < end ==> ActiveAt(marks, x) == active
    ensures CategoryOccupancy(marks, start, end, c)
            == CategoryOccupancy(marks, start, middle, c) + if c == active.category then end - middle else 0
    decreases end - middle
  {
    if middle < end {
      SpanCategoryOccupancy(marks, start, middle, end - 1, active, c);
    }
  }

  // Crediting a span of constant focus keeps the totals exact.
  lemma SpanTallies(marks: seq<Mark>, start: int, middle: int, end: int,
                    totals: map<Category, nat>, appTotals: map<Focus, nat>, active: Focus)
    requires start <= middle && Tallies(marks, start, middle, totals, appTotals)
    requires forall x :: middle <= x < end ==> ActiveAt(marks, x) == active
    ensures middle < end ==>
              Tallies(marks, start, end, Credit(totals, active.category, end - middle), Credit(appTotals, active, end - middle))
  {
    if middle < end {
      forall f ensures Occupancy(marks, start, end, f)
                       == Occupancy(marks, start, middle, f) + if f == active then end - middle else 0 {
        SpanOccupancy(marks, start, middle, end, active, f);
      }
      forall c ensures CategoryOccupancy(marks, start, end, c)
                       == CategoryOccupancy(marks, start, middle, c) + if c == active.category then end - middle else 0 {
        SpanCategoryOccupancy(marks, start, middle, end, active, c);
      }
    }
  }

  lemma WholeShare(duration: int)
    ensures duration > 0 ==> Share(duration, duration) == 1.0
  {
  }

  lemma {:induction false} NoSwitchBefore(marks: seq<Mark>, j: nat, start: int, end: int)
    requires Sorted(marks) && j <= |marks| && (j > 0 ==> marks[j - 1].t <= start)
    ensures SwitchesBetween(marks[..j], start, end) == 0
  {
    if j > 0 {
      assert marks[..j][..j - 1] == marks[..j - 1];
      NoSwitchBefore(marks, j - 1, start, end);
    }
  }

  lemma {:induction false} NoSwitchAfter(marks: seq<Mark>, j: nat, start: int, end: int)
    requires Sorted(marks) && j <= |marks| && (j < |marks| ==> marks[j].t >= end)
    ensures SwitchesBetween(marks, start, end) == SwitchesBetween(marks[..j], start, end)
    decreases |marks|
  {
    if j < |marks| {
      var shorter := marks[..|marks| - 1];
      assert marks[|marks| - 1].t >= end;
      NoSwitchAfter(shorter, j, start, end);
      assert shorter[..j] == marks[..j];
    } else {
      assert marks[..j] == marks;
    }
  }

  lemma AddedIsSorted(marks: seq<Mark>, mark: Mark)
    requires Sorted(marks)
    ensures Sorted(Added(marks, mark))
  {
    var i := BisectRight(Starts(marks), mark.t);
    forall k | 0 <= k < i ensures marks[k].t <= mark.t {
      assert marks[k].t <= marks[i - 1].t == Starts(marks)[i - 1];
    }
    forall k | i <= k < |marks| ensures marks[k].t > mark.t {
      assert Starts(marks)[k] == marks[k].t;
    }
    InsertedIsSorted(marks, i, mark);
  }

  lemma InsertedIsSorted(marks: seq<Mark>, i: nat, mark: Mark)
    requires Sorted(marks) && i <= |marks|
    requires forall k :: 0 <= k < i ==> marks[k].t <= mark.t
    requires forall k :: i <= k < |marks| ==> marks[k].t > mark.t
    ensures Sorted(Inserted(marks, i, mark))
  {
  }

  /** A change that is not older than any other is simply appended. */
  lemma AddedLast(marks: seq<Mark>, mark: Mark)
    requires forall i :: 0 <= i < |marks| ==> marks[i].t <= mark.t
    ensures Added(marks, mark) == marks + [mark]
  {
  }
}
