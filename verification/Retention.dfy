/** What rotation keeps, compresses and deletes, by the age of each day. */
module Retention {
  import opened Wrappers
  import opened Audit

  /** A past day of at least this age. */
  predicate Aged(ages: Ages, day: int, age: int) {
    day < ages.today && ages.today - day >= age
  }

  predicate Deletable(ages: Ages, f: FileName) {
    Aged(ages, f.day, ages.deleteAfter)
  }

  predicate Compressible(ages: Ages, f: FileName) {
    !f.compressed && !Deletable(ages, f) && Aged(ages, f.day, ages.compressAfter)
  }

  // The two possible files of a day, after rotation.
  ghost predicate DayRetained(files: Directory, rotated: Directory, ages: Ages, day: int) {
    var plain, compressed := FileName(day, false), FileName(day, true);
    if Aged(ages, day, ages.deleteAfter) then plain !in rotated && compressed !in rotated
    else if plain in files && Aged(ages, day, ages.compressAfter) then
      plain !in rotated && compressed in rotated && rotated[compressed] == files[plain]
    else
      && (plain in rotated <==> plain in files) && (compressed in rotated <==> compressed in files)
      && (plain in rotated ==> rotated[plain] == files[plain])
      && (compressed in rotated ==> rotated[compressed] == files[compressed])
  }

  function Count(listing: seq<FileName>, kind: FileName -> bool): nat {
    if listing == [] then 0
    else Count(listing[..|listing| - 1], kind) + if kind(listing[|listing| - 1]) then 1 else 0
  }

  // A file not yet visited is still there.
  lemma StillThere(digest: Digest, files: Directory, before: seq<FileName>, last: FileName, ages: Ages)
    requires Intact(digest, files) && last in files && last !in before
    requires forall i :: 0 <= i < |before| ==> before[i] in files
    requires forall i, j :: 0 <= i < j < |before| ==> before[i] != before[j]
    ensures var r := RotatedAll(digest, files, before, ages);
            !r.failed && last in r.files && Verified(digest, r.files[last]).Some?
  {
    RotationByDay(digest, files, before, ages, last.day);
    if last.compressed {
      assert last == FileName(last.day, true);
    } else {
      assert last == FileName(last.day, false);
    }
  }

  lemma {:induction false} CountsAreExact(digest: Digest, files: Directory, listing: seq<FileName>, ages: Ages)
    requires Intact(digest, files)
    requires forall i :: 0 <= i < |listing| ==> listing[i] in files
    requires forall i, j :: 0 <= i < j < |listing| ==> listing[i] != listing[j]
    ensures var r := RotatedAll(digest, files, listing, ages);
            && !r.failed
            && r.deleted == Count(listing, (f: FileName) => Deletable(ages, f))
            && r.compressed == Count(listing, (f: FileName) => Compressible(ages, f))
    decreases |listing|
  {
    if listing != [] {
      var before, last := listing[..|listing| - 1], listing[|listing| - 1];
      CountsAreExact(digest, files, before, ages);
      assert last !in before;
      StillThere(digest, files, before, last, ages);
    }
  }

  /** Main result: rotating an intact directory deletes exactly the files of past days of at
      least the deletion age, compresses exactly the other plain files of past days of at
      least the compression age, leaves the rest as it was, and counts both. */
  lemma RetentionIsExact(digest: Digest, files: Directory, listing: seq<FileName>, ages: Ages)
    requires Intact(digest, files) && Lists(listing, files)
    ensures var r := RotatedAll(digest, files, listing, ages);
            && !r.failed
            && (forall day :: DayRetained(files, r.files, ages, day))
            && r.deleted == Count(listing, (f: FileName) => Deletable(ages, f))
            && r.compressed == Count(listing, (f: FileName) => Compressible(ages, f))
  {
    CountsAreExact(digest, files, listing, ages);
    var r := RotatedAll(digest, files, listing, ages);
    forall day ensures DayRetained(files, r.files, ages, day) {
      RotationByDay(digest, files, listing, ages, day);
    }
  }
}
