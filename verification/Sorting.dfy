/** Stable sorting by a (time, sequence) key, as the builders order their events. */
module Sorting {

  datatype Key = Key(t: int, sequence: int)

  predicate KeyLess(a: Key, b: Key) {
    a.t < b.t || (a.t == b.t && a.sequence < b.sequence)
  }

  function Insert<T>(x: T, xs: seq<T>, key: T -> Key): seq<T> {
    if xs == [] || !KeyLess(key(xs[0]), key(x)) then [x] + xs
    else [xs[0]] + Insert(x, xs[1..], key)
  }

  // A later element never moves before an earlier one with the same key.
  function Sort<T>(xs: seq<T>, key: T -> Key): seq<T> {
    if xs == [] then [] else Insert(xs[0], Sort(xs[1..], key), key)
  }

  ghost predicate Ascending<T>(xs: seq<T>, key: T -> Key) {
    forall i, j :: 0 <= i < j < |xs| ==> !KeyLess(key(xs[j]), key(xs[i]))
  }

  ghost predicate StrictlyAscending<T>(xs: seq<T>, key: T -> Key) {
    forall i, j :: 0 <= i < j < |xs| ==> KeyLess(key(xs[i]), key(xs[j]))
  }

  lemma {:induction false} InsertKeeps<T>(x: T, xs: seq<T>, key: T -> Key)
    requires Ascending(xs, key)
    ensures Ascending(Insert(x, xs, key), key)
    ensures multiset(Insert(x, xs, key)) == multiset{x} + multiset(xs)
  {
    if xs != [] && KeyLess(key(xs[0]), key(x)) {
      InsertKeeps(x, xs[1..], key);
      assert xs == [xs[0]] + xs[1..];
      var rest := Insert(x, xs[1..], key);
      forall j | 0 <= j < |rest| ensures !KeyLess(key(rest[j]), key(xs[0])) {
        NoneIsLess(x, xs, key, rest, j);
      }
    }
  }

  // What an insertion among the later elements brings is no less than the first one.
  lemma NoneIsLess<T>(x: T, xs: seq<T>, key: T -> Key, rest: seq<T>, j: nat)
    requires xs != [] && Ascending(xs, key) && KeyLess(key(xs[0]), key(x))
    requires multiset(rest) == multiset{x} + multiset(xs[1..]) && j < |rest|
    ensures !KeyLess(key(rest[j]), key(xs[0]))
  {
    assert rest[j] in multiset(rest);
    assert rest[j] == x || rest[j] in xs[1..];
  }

  /** Sorting yields an ascending permutation. */
  lemma {:induction false} SortIsAscendingPermutation<T>(xs: seq<T>, key: T -> Key)
    ensures Ascending(Sort(xs, key), key) && multiset(Sort(xs, key)) == multiset(xs)
  {
    if xs != [] {
      SortIsAscendingPermutation(xs[1..], key);
      InsertKeeps(xs[0], Sort(xs[1..], key), key);
      assert xs == [xs[0]] + xs[1..];
    }
  }

  /** Sorting leaves an already ordered sequence alone. */
  lemma {:induction false} SortOfAscending<T>(xs: seq<T>, key: T -> Key)
    requires Ascending(xs, key)
    ensures Sort(xs, key) == xs
  {
    if xs != [] {
      SortOfAscending(xs[1..], key);
      assert xs == [xs[0]] + xs[1..];
    }
  }

  lemma HeadsAgree<T>(xs: seq<T>, ys: seq<T>, key: T -> Key)
    requires Ascending(xs, key) && StrictlyAscending(ys, key)
    requires xs != [] && ys != [] && xs[0] in ys && ys[0] in xs
    ensures xs[0] == ys[0]
  {
    var i :| 0 <= i < |xs| && xs[i] == ys[0];
    var j :| 0 <= j < |ys| && ys[j] == xs[0];
  }

  lemma TailsAgree<T>(xs: seq<T>, ys: seq<T>)
    requires xs != [] && ys != [] && xs[0] == ys[0] && multiset(xs) == multiset(ys)
    ensures multiset(xs[1..]) == multiset(ys[1..])
  {
    assert xs == [xs[0]] + xs[1..] && ys == [ys[0]] + ys[1..];
    assert multiset(xs[1..]) == multiset(xs) - multiset{xs[0]};
    assert multiset(ys[1..]) == multiset(ys) - multiset{ys[0]};
  }

  // A permutation with distinct keys has one ascending order only.
  lemma {:induction false} AscendingIsUnique<T>(xs: seq<T>, ys: seq<T>, key: T -> Key)
    requires Ascending(xs, key) && StrictlyAscending(ys, key) && multiset(xs) == multiset(ys)
    ensures xs == ys
    decreases |xs|
  {
    assert |xs| == |ys| by { assert |multiset(xs)| == |multiset(ys)|; }
    if xs != [] {
      assert xs[0] in multiset(xs) && ys[0] in multiset(ys);
      HeadsAgree(xs, ys, key);
      TailsAgree(xs, ys);
      AscendingIsUnique(xs[1..], ys[1..], key);
    }
  }

  /** Whatever the order in which the events are supplied, sorting recovers the stream. */
  lemma SortRecovers<T>(supplied: seq<T>, stream: seq<T>, key: T -> Key)
    requires StrictlyAscending(stream, key) && multiset(supplied) == multiset(stream)
    ensures Sort(supplied, key) == stream
  {
    SortIsAscendingPermutation(supplied, key);
    AscendingIsUnique(Sort(supplied, key), stream, key);
  }
}
