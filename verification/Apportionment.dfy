/** Splitting a participant's days into training, validation and evaluation. */
module Apportionment {
  import opened Wrappers

  datatype Partition = Train | Validation | Evaluation

  datatype SplitSettings = SplitSettings(minDistinctDays: nat, training: real, validation: real, evaluation: real)
  {
    // What the collection settings guarantee about the fractions.
    predicate Valid() {
      training > 0.0 && validation > 0.0 && evaluation > 0.0 && training + validation + evaluation == 1.0
    }

    function Fraction(index: nat): real
      requires index < 3
    {
      if index == 0 then training else if index == 1 then validation else evaluation
    }
  }

  datatype FreezeError =
    | TooFewDays | NoThreeWaySplit
    | BadVersion | IneligibleWindow | NoWindows
    | ManifestUnreadable | RecordsInvalid | LookupFailed
    | ChecksumMismatch | WindowMissing | WindowChanged | PartitionMissing

  function Quota(settings: SplitSettings, days: nat, index: nat): real
    requires 3 <= days && index < 3
  {
    (days - 3) as real * settings.Fraction(index)
  }

  function Whole(settings: SplitSettings, days: nat, index: nat): int
    requires 3 <= days && index < 3
  {
    Quota(settings, days, index).Floor
  }

  function Remainder(settings: SplitSettings, days: nat, index: nat): real
    requires 3 <= days && index < 3
  {
    Quota(settings, days, index) - Whole(settings, days, index) as real
  }

  // The sort key (remainder, fraction), larger first.
  predicate Precedes(settings: SplitSettings, days: nat, a: nat, b: nat)
    requires 3 <= days && a < 3 && b < 3
  {
    var x, y := Remainder(settings, days, a), Remainder(settings, days, b);
    x > y || (x == y && settings.Fraction(a) > settings.Fraction(b))
  }

  predicate Indices(order: seq<nat>) {
    forall i :: 0 <= i < |order| ==> order[i] < 3
  }

  // A stable descending sort: an index goes behind those with an equal key.
  function Place(settings: SplitSettings, days: nat, index: nat, order: seq<nat>): (placed: seq<nat>)
    requires 3 <= days && index < 3 && Indices(order)
    ensures Indices(placed) && |placed| == |order| + 1
    ensures multiset(placed) == multiset(order) + multiset{index}
  {
    if order == [] || Precedes(settings, days, index, order[0]) then [index] + order
    else
      assert order == [order[0]] + order[1..];
      [order[0]] + Place(settings, days, index, order[1..])
  }

  function Order(settings: SplitSettings, days: nat): (order: seq<nat>)
    requires 3 <= days
    ensures Indices(order) && multiset(order) == multiset{0, 1, 2}
  {
    Place(settings, days, 2, Place(settings, days, 1, Place(settings, days, 0, [])))
  }

  function Wholes(settings: SplitSettings, days: nat): seq<int>
    requires 3 <= days
  {
    [Whole(settings, days, 0), Whole(settings, days, 1), Whole(settings, days, 2)]
  }

  // The days left over once every partition has its own and its whole quota.
  function Leftover(settings: SplitSettings, days: nat): int
    requires 3 <= days
  {
    days - 3 - (Whole(settings, days, 0) + Whole(settings, days, 1) + Whole(settings, days, 2))
  }

  function Bumped(extras: seq<int>, order: seq<nat>): (bumped: seq<int>)
    requires |extras| == 3 && Indices(order)
    ensures |bumped| == 3
    decreases |order|
  {
    if order == [] then extras
    else
      var before, last := Bumped(extras, order[..|order| - 1]), order[|order| - 1];
      before[last := before[last] + 1]
  }

  function BoundedLeftover(settings: SplitSettings, days: nat): (leftover: nat)
    requires settings.Valid() && 3 <= days
    ensures leftover <= 2
  {
    LeftoverIsSmall(settings, days);
    Leftover(settings, days)
  }

  function Extras(settings: SplitSettings, days: nat): (extras: seq<int>)
    requires settings.Valid() && 3 <= days
    ensures |extras| == 3
  {
    Bumped(Wholes(settings, days), Order(settings, days)[..BoundedLeftover(settings, days)])
  }

  lemma FloorBounds(x: real)
    ensures x.Floor as real <= x < x.Floor as real + 1.0
  {
  }

  lemma QuotaIsNonNegative(settings: SplitSettings, days: nat, index: nat)
    requires settings.Valid() && 3 <= days && index < 3
    ensures Quota(settings, days, index) >= 0.0 && Whole(settings, days, index) >= 0
  {
    ProductIsNonNegative((days - 3) as real, settings.Fraction(index));
    FloorBounds(Quota(settings, days, index));
  }

  lemma ProductIsNonNegative(x: real, y: real)
    requires x >= 0.0 && y >= 0.0
    ensures x * y >= 0.0
  {
  }

  lemma QuotasAddUp(settings: SplitSettings, days: nat)
    requires settings.Valid() && 3 <= days
    ensures Quota(settings, days, 0) + Quota(settings, days, 1) + Quota(settings, days, 2) == (days - 3) as real
  {
    var n := (days - 3) as real;
    assert n * settings.training + n * settings.validation + n * settings.evaluation
           == n * (settings.training + settings.validation + settings.evaluation);
  }

  // What is left over is the sum of the three remainders.
  lemma LeftoverIsSmall(settings: SplitSettings, days: nat)
    requires settings.Valid() && 3 <= days
    ensures 0 <= Leftover(settings, days) <= 2
    ensures Leftover(settings, days) as real ==
            Remainder(settings, days, 0) + Remainder(settings, days, 1) + Remainder(settings, days, 2)
    ensures forall i :: 0 <= i < 3 ==> 0.0 <= Remainder(settings, days, i) < 1.0
  {
    QuotasAddUp(settings, days);
    FloorBounds(Quota(settings, days, 0));
    FloorBounds(Quota(settings, days, 1));
    FloorBounds(Quota(settings, days, 2));
  }

  function TrainEnd(settings: SplitSettings, days: nat): int
    requires settings.Valid() && 3 <= days
  {
    1 + Extras(settings, days)[0]
  }

  function ValidationEnd(settings: SplitSettings, days: nat): int
    requires settings.Valid() && 3 <= days
  {
    TrainEnd(settings, days) + 1 + Extras(settings, days)[1]
  }

  function PartitionAt(settings: SplitSettings, days: nat, index: nat): Partition
    requires settings.Valid() && 3 <= days
  {
    if index < TrainEnd(settings, days) then Train
    else if index < ValidationEnd(settings, days) then Validation
    else Evaluation
  }

  // The dictionary from days to partitions, filled in date order.
  function Assigned(settings: SplitSettings, total: nat, days: seq<int>): map<int, Partition>
    requires settings.Valid() && 3 <= total
  {
    if days == [] then map[]
    else Assigned(settings, total, days[..|days| - 1])[days[|days| - 1] := PartitionAt(settings, total, |days| - 1)]
  }

  function Partitioned(settings: SplitSettings, days: seq<int>): Result<map<int, Partition>, FreezeError>
    requires settings.Valid()
  {
    if |days| < settings.minDistinctDays then Err(TooFewDays)
    else if |days| < 3 then Err(NoThreeWaySplit)
    else Ok(Assigned(settings, |days|, days))
  }

  // The loop that hands out the leftover days in order.
  method HandOut(wholes: seq<int>, order: seq<nat>) returns (extras: seq<int>)
    requires |wholes| == 3 && Indices(order)
    ensures extras == Bumped(wholes, order)
  {
    extras := wholes;
    for i := 0 to |order|
      invariant |extras| == 3 && extras == Bumped(wholes, order[..i])
    {
      assert order[..i + 1][..i] == order[..i];
      extras := extras[order[i] := extras[order[i]] + 1];
    }
    assert order[..|order|] == order;
  }

  // What each partition has beyond its one day.
  method ExtraDaysFor(settings: SplitSettings, days: nat) returns (extras: seq<int>)
    requires settings.Valid() && 3 <= days
    ensures extras == Extras(settings, days)
  {
    extras := HandOut(Wholes(settings, days), Order(settings, days)[..BoundedLeftover(settings, days)]);
  }

  method PartitionDays(settings: SplitSettings, days: seq<int>) returns (result: Result<map<int, Partition>,
                       FreezeError>)
    requires settings.Valid()
    ensures result == Partitioned(settings, days)
  {
    if |days| < settings.minDistinctDays {
      return Err(TooFewDays);
    }
    if |days| < 3 {
      return Err(NoThreeWaySplit);
    }
    var extras := ExtraDaysFor(settings, |days|);
    var trainEnd := 1 + extras[0];
    var validationEnd := trainEnd + 1 + extras[1];
    var assignment := Assign(settings, days, trainEnd, validationEnd);
    return Ok(assignment);
  }

  // The dictionary comprehension over the enumerated days.
  method Assign(settings: SplitSettings, days: seq<int>, trainEnd: int,
                validationEnd: int) returns (assignment: map<int, Partition>)
    requires settings.Valid() && 3 <= |days|
    requires trainEnd == TrainEnd(settings, |days|) && validationEnd == ValidationEnd(settings, |days|)
    ensures assignment == Assigned(settings, |days|, days)
  {
    assignment := map[];
    for i := 0 to |days|
      invariant assignment == Assigned(settings, |days|, days[..i])
    {
      assert days[..i + 1][..i] == days[..i];
      assignment := assignment[days[i] := if i < trainEnd then Train else if i < validationEnd then Validation else Evaluation];
    }
    assert days[..|days|] == days;
  }

  // ---------------------------------------------------------------------
  // Fairness
  // ---------------------------------------------------------------------

  function Size(settings: SplitSettings, days: nat, index: nat): int
    requires settings.Valid() && 3 <= days && index < 3
  {
    if index == 0 then TrainEnd(settings, days)
    else if index == 1 then ValidationEnd(settings, days) - TrainEnd(settings, days)
    else days - ValidationEnd(settings, days)
  }

  lemma {:induction false} BumpedCounts(extras: seq<int>, order: seq<nat>, i: nat)
    requires |extras| == 3 && Indices(order) && i < 3
    ensures Bumped(extras, order)[i] == extras[i] + multiset(order)[i]
    decreases |order|
  {
    if order != [] {
      BumpedCounts(extras, order[..|order| - 1], i);
      assert order == order[..|order| - 1] + [order[|order| - 1]];
    }
  }

  // The sorted order: nothing precedes what comes before it.
  ghost predicate Descending(settings: SplitSettings, days: nat, order: seq<nat>)
    requires 3 <= days && Indices(order)
  {
    forall i, j :: 0 <= i < j < |order| ==> !Precedes(settings, days, order[j], order[i])
  }

  lemma {:induction false} PlaceKeepsDescending(settings: SplitSettings, days: nat, index: nat, order: seq<nat>)
    requires 3 <= days && index < 3 && Indices(order) && Descending(settings, days, order)
    ensures Descending(settings, days, Place(settings, days, index, order))
  {
    if order != [] && !Precedes(settings, days, index, order[0]) {
      PlaceKeepsDescending(settings, days, index, order[1..]);
      var rest := Place(settings, days, index, order[1..]);
      assert order == [order[0]] + order[1..];
      forall j | 0 <= j < |rest| ensures !Precedes(settings, days, rest[j], order[0]) {
        assert rest[j] in multiset(rest);
      }
    }
  }

  lemma OrderIsDescending(settings: SplitSettings, days: nat)
    requires 3 <= days
    ensures Descending(settings, days, Order(settings, days))
  {
    PlaceKeepsDescending(settings, days, 0, []);
    PlaceKeepsDescending(settings, days, 1, Place(settings, days, 0, []));
    PlaceKeepsDescending(settings, days, 2, Place(settings, days, 1, Place(settings, days, 0, [])));
  }

  // A stable sort: where no key decides, the earlier index comes first.
  ghost predicate Steady(settings: SplitSettings, days: nat, order: seq<nat>)
    requires 3 <= days && Indices(order)
  {
    forall i, j :: 0 <= i < j < |order| ==> order[i] < order[j] || Precedes(settings, days, order[i], order[j])
  }

  lemma PrecedesThrough(settings: SplitSettings, days: nat, a: nat, b: nat, c: nat)
    requires 3 <= days && a < 3 && b < 3 && c < 3
    requires Precedes(settings, days, a, b) && !Precedes(settings, days, c, b)
    ensures Precedes(settings, days, a, c)
  {
  }

  // An index that goes to the front precedes all the others.
  lemma FrontPrecedes(settings: SplitSettings, days: nat, index: nat, order: seq<nat>)
    requires 3 <= days && index < 3 && Indices(order) && order != []
    requires Descending(settings, days, order) && Steady(settings, days, order)
    requires Precedes(settings, days, index, order[0])
    ensures Steady(settings, days, [index] + order)
  {
    forall j | 0 <= j < |order| ensures Precedes(settings, days, index, order[j]) {
      if j > 0 {
        PrecedesThrough(settings, days, index, order[0], order[j]);
      }
    }
  }

  // The first index comes before whatever is placed behind it.
  lemma FirstComesBefore(settings: SplitSettings, days: nat, index: nat, order: seq<nat>, x: nat)
    requires 3 <= days && index < 3 && Indices(order) && order != [] && x < 3
    requires Steady(settings, days, order) && order[0] < index
    requires x == index || x in order[1..]
    ensures order[0] < x || Precedes(settings, days, order[0], x)
  {
    if x != index {
      var k :| 0 <= k < |order| - 1 && order[1..][k] == x;
      assert order[k + 1] == x;
    }
  }

  lemma SteadyInFront(settings: SplitSettings, days: nat, first: nat, rest: seq<nat>)
    requires 3 <= days && first < 3 && Indices(rest) && Steady(settings, days, rest)
    requires forall j :: 0 <= j < |rest| ==> first < rest[j] || Precedes(settings, days, first, rest[j])
    ensures Steady(settings, days, [first] + rest)
  {
  }

  lemma {:induction false} PlaceKeepsSteady(settings: SplitSettings, days: nat, index: nat, order: seq<nat>)
    requires 3 <= days && index < 3 && Indices(order)
    requires Descending(settings, days, order) && Steady(settings, days, order)
    requires forall i :: 0 <= i < |order| ==> order[i] < index
    ensures Steady(settings, days, Place(settings, days, index, order))
  {
    if order != [] {
      if Precedes(settings, days, index, order[0]) {
        FrontPrecedes(settings, days, index, order);
      } else {
        PlaceKeepsSteady(settings, days, index, order[1..]);
        var rest := Place(settings, days, index, order[1..]);
        forall j | 0 <= j < |rest| ensures order[0] < rest[j] || Precedes(settings, days, order[0], rest[j]) {
          assert rest[j] in multiset(rest);
          FirstComesBefore(settings, days, index, order, rest[j]);
        }
        SteadyInFront(settings, days, order[0], rest);
      }
    }
  }

  lemma OrderIsSteady(settings: SplitSettings, days: nat)
    requires 3 <= days
    ensures Steady(settings, days, Order(settings, days))
  {
    var first := Place(settings, days, 0, []);
    var second := Place(settings, days, 1, first);
    PlaceKeepsDescending(settings, days, 0, []);
    PlaceKeepsDescending(settings, days, 1, first);
    PlaceKeepsSteady(settings, days, 1, first);
    forall i | 0 <= i < |second| ensures second[i] < 2 {
      assert second[i] in multiset(second);
    }
    PlaceKeepsSteady(settings, days, 2, second);
  }

  predicate Favoured(settings: SplitSettings, days: nat, index: nat)
    requires settings.Valid() && 3 <= days && index < 3
  {
    index in Order(settings, days)[..BoundedLeftover(settings, days)]
  }

  lemma PrefixCountsOnce(order: seq<nat>, cut: nat, index: nat)
    requires cut <= |order| && multiset(order)[index] == 1
    ensures multiset(order[..cut])[index] == if index in order[..cut] then 1 else 0
  {
    assert order == order[..cut] + order[cut..];
    assert multiset(order) == multiset(order[..cut]) + multiset(order[cut..]);
  }

  // Each index occurs once in the order, so a favoured one gets exactly one extra day.
  lemma ExtraDays(settings: SplitSettings, days: nat, index: nat)
    requires settings.Valid() && 3 <= days && index < 3
    ensures Extras(settings, days)[index] == Whole(settings, days, index) + if Favoured(settings, days, index) then 1 else 0
  {
    var order, leftover := Order(settings, days), BoundedLeftover(settings, days);
    BumpedCounts(Wholes(settings, days), order[..leftover], index);
    PrefixCountsOnce(order, leftover, index);
  }

  // The extra days are handed out completely.
  lemma ExtrasAddUp(settings: SplitSettings, days: nat)
    requires settings.Valid() && 3 <= days
    ensures Extras(settings, days)[0] + Extras(settings, days)[1] + Extras(settings, days)[2] == days - 3
  {
    LeftoverIsSmall(settings, days);
    BumpsAddUp(Wholes(settings, days), Order(settings, days)[..BoundedLeftover(settings, days)]);
  }

  lemma {:induction false} BumpsAddUp(extras: seq<int>, order: seq<nat>)
    requires |extras| == 3 && Indices(order)
    ensures var bumped := Bumped(extras, order);
            bumped[0] + bumped[1] + bumped[2] == extras[0] + extras[1] + extras[2] + |order|
    decreases |order|
  {
    if order != [] {
      BumpsAddUp(extras, order[..|order| - 1]);
    }
  }

  /** Extra days go to the largest remainders; among equal ones to the larger fractions, and
      where these are equal too to the earlier partition. */
  lemma LargestRemaindersFirst(settings: SplitSettings, days: nat, a: nat, b: nat)
    requires settings.Valid() && 3 <= days && a < 3 && b < 3
    requires Favoured(settings, days, a) && !Favoured(settings, days, b)
    ensures Remainder(settings, days, a) >= Remainder(settings, days, b)
    ensures Remainder(settings, days, a) == Remainder(settings, days, b) ==>
              settings.Fraction(a) > settings.Fraction(b) || (settings.Fraction(a) == settings.Fraction(b) && a < b)
  {
    OrderIsDescending(settings, days);
    OrderIsSteady(settings, days);
    var i, j := FavouredStandsFirst(settings, days, a, b);
    DescendingMeans(settings, days, Order(settings, days), i, j);
  }

  // Where two indices stand in the order.
  lemma FavouredStandsFirst(settings: SplitSettings, days: nat, a: nat, b: nat) returns (i: nat, j: nat)
    requires settings.Valid() && 3 <= days && a < 3 && b < 3
    requires Favoured(settings, days, a) && !Favoured(settings, days, b)
    ensures i < j < |Order(settings, days)| && Order(settings, days)[i] == a && Order(settings, days)[j] == b
  {
    LeftoverIsSmall(settings, days);
    var order, leftover := Order(settings, days), Leftover(settings, days);
    assert b in multiset(order);
    j :| 0 <= j < |order| && order[j] == b;
    i :| 0 <= i < leftover && order[..leftover][i] == a;
  }

  lemma DescendingMeans(settings: SplitSettings, days: nat, order: seq<nat>, i: nat, j: nat)
    requires 3 <= days && Indices(order) && Descending(settings, days, order) && i < j < |order|
    requires Steady(settings, days, order)
    ensures Remainder(settings, days, order[i]) >= Remainder(settings, days, order[j])
    ensures Remainder(settings, days, order[i]) == Remainder(settings, days, order[j]) ==>
              || settings.Fraction(order[i]) > settings.Fraction(order[j])
              || (settings.Fraction(order[i]) == settings.Fraction(order[j]) && order[i] < order[j])
  {
    assert !Precedes(settings, days, order[j], order[i]);
  }

  function Share(favoured: bool): int {
    if favoured then 1 else 0
  }

  // As many partitions are favoured as days are left over.
  lemma FavouredCount(settings: SplitSettings, days: nat)
    requires settings.Valid() && 3 <= days
    ensures Leftover(settings, days) ==
            Share(Favoured(settings, days, 0)) + Share(Favoured(settings, days, 1)) + Share(Favoured(settings, days, 2))
  {
    ExtrasAddUp(settings, days);
    ExtraDays(settings, days, 0);
    ExtraDays(settings, days, 1);
    ExtraDays(settings, days, 2);
  }

  // An unfavoured partition's remainder is no larger than a favoured one's.
  lemma Outranked(settings: SplitSettings, days: nat, a: nat, b: nat)
    requires settings.Valid() && 3 <= days && a < 3 && b < 3 && Favoured(settings, days, a)
    ensures Remainder(settings, days, b) <= Remainder(settings, days, a) || Favoured(settings, days, b)
  {
    if !Favoured(settings, days, b) {
      LargestRemaindersFirst(settings, days, a, b);
    }
  }

  lemma RemaindersNeedRoom(x: real, y: real, z: real, b: bool, c: bool)
    requires 0.0 <= x && 0.0 <= y < 1.0 && 0.0 <= z < 1.0
    requires (y <= x || b) && (z <= x || c)
    requires x + y + z == (1 + Share(b) + Share(c)) as real
    ensures x > 0.0
  {
  }

  // The two sums, taken in any order of the partitions.
  lemma TotalsInAnyOrder(settings: SplitSettings, days: nat, a: nat, b: nat, c: nat)
    requires settings.Valid() && 3 <= days && a < 3 && b < 3 && c < 3 && a != b && b != c && a != c
    ensures Remainder(settings, days, a) + Remainder(settings, days, b) + Remainder(settings, days, c)
            == (Share(Favoured(settings, days, a)) + Share(Favoured(settings, days, b)) + Share(Favoured(settings, days, c))) as real
    ensures 0.0 <= Remainder(settings, days, a) && 0.0 <= Remainder(settings, days, b) < 1.0
    ensures 0.0 <= Remainder(settings, days, c) < 1.0
  {
    LeftoverIsSmall(settings, days);
    FavouredCount(settings, days);
    AnyOrder([Remainder(settings, days, 0), Remainder(settings, days, 1), Remainder(settings, days, 2)], a, b, c);
    AnyOrder([Share(Favoured(settings, days, 0)) as real, Share(Favoured(settings, days, 1)) as real,
              Share(Favoured(settings, days, 2)) as real], a, b, c);
  }

  lemma AnyOrder(values: seq<real>, a: nat, b: nat, c: nat)
    requires |values| == 3 && a < 3 && b < 3 && c < 3 && a != b && b != c && a != c
    ensures values[a] + values[b] + values[c] == values[0] + values[1] + values[2]
  {
  }

  // A favoured partition has a fractional part: the leftover days are fewer than these.
  lemma FavouredHasRemainder(settings: SplitSettings, days: nat, a: nat, b: nat, c: nat)
    requires settings.Valid() && 3 <= days && a < 3 && b < 3 && c < 3 && a != b && b != c && a != c
    requires Favoured(settings, days, a)
    ensures Remainder(settings, days, a) > 0.0
  {
    TotalsInAnyOrder(settings, days, a, b, c);
    Outranked(settings, days, a, b);
    Outranked(settings, days, a, c);
    RemaindersNeedRoom(Remainder(settings, days, a), Remainder(settings, days, b), Remainder(settings, days, c),
                       Favoured(settings, days, b), Favoured(settings, days, c));
  }

  /** Main result: the three partitions are non-empty, together they are all the days, and
      each differs from its ideal size, one day plus its share of the rest, by less than one. */
  lemma SplitIsFair(settings: SplitSettings, days: nat)
    requires settings.Valid() && 3 <= days
    ensures Size(settings, days, 0) + Size(settings, days, 1) + Size(settings, days, 2) == days
    ensures forall i :: 0 <= i < 3 ==>
              && Size(settings, days, i) >= 1
              && -1.0 < Size(settings, days, i) as real - (1.0 + Quota(settings, days, i)) < 1.0
  {
    LeftoverIsSmall(settings, days);
    ExtrasAddUp(settings, days);
    forall i | 0 <= i < 3
      ensures Size(settings, days, i) >= 1 && -1.0 < Size(settings, days, i) as real - (1.0 + Quota(settings, days, i)) < 1.0
    {
      ExtraDays(settings, days, i);
      QuotaIsNonNegative(settings, days, i);
      if Favoured(settings, days, i) {
        FavouredHasRemainder(settings, days, i, if i == 0 then 1 else 0, if i == 2 then 1 else 2);
      }
      assert Size(settings, days, i) == 1 + Extras(settings, days)[i];
    }
  }

  ghost predicate StrictlyAscending(days: seq<int>) {
    forall i, j :: 0 <= i < j < |days| ==> days[i] < days[j]
  }

  lemma {:induction false} AssignedMeans(settings: SplitSettings, total: nat, days: seq<int>)
    requires settings.Valid() && 3 <= total && StrictlyAscending(days)
    ensures forall d :: d in Assigned(settings, total, days) <==> d in days
    ensures forall i :: 0 <= i < |days| ==> AssignedAt(settings, total, days, i)
    decreases |days|
  {
    if days != [] {
      var before, last := days[..|days| - 1], days[|days| - 1];
      AssignedMeans(settings, total, before);
      assert days == before + [last];
      forall i | 0 <= i < |days| ensures AssignedAt(settings, total, days, i) {
        if i < |before| {
          assert AssignedAt(settings, total, before, i) && days[i] < last;
        }
      }
    }
  }

  // Day i stands in the partition of its index.
  ghost predicate AssignedAt(settings: SplitSettings, total: nat, days: seq<int>, i: nat)
    requires settings.Valid() && 3 <= total && i < |days|
  {
    var assignment := Assigned(settings, total, days);
    days[i] in assignment && assignment[days[i]] == PartitionAt(settings, total, i)
  }

  /** The partitions follow each other in date order: day i is in training, validation or
      evaluation as i is below the first size, below the first two, or not. */
  lemma SplitIsContiguous(settings: SplitSettings, days: seq<int>, i: nat)
    requires settings.Valid() && StrictlyAscending(days) && Partitioned(settings, days).Ok? && i < |days|
    ensures var assignment := Partitioned(settings, days).value;
            && (forall d :: d in assignment <==> d in days)
            && (assignment[days[i]] == Train <==> i < Size(settings, |days|, 0))
            && (assignment[days[i]] == Evaluation <==> |days| - Size(settings, |days|, 2) <= i)
  {
    AssignedMeans(settings, |days|, days);
    assert AssignedAt(settings, |days|, days, i);
    SplitIsFair(settings, |days|);
  }
}
