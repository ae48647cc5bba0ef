/** The audit log: one hash chain a day, rotated into compressed files. */
module Audit {
  import opened Wrappers

  const GENESIS := "0000000000000000000000000000000000000000000000000000000000000000"

  /** The fields a record's hash covers: its id, everything else it says, and the link. */
  datatype Body = Body(id: string, content: string, previous: string)

  // SHA-256 over the canonical JSON of a body stays uninterpreted.
  type Digest = Body -> string

  datatype Line =
    | Unreadable
    | Record(body: Body, claimed: string)

  datatype FileName = FileName(day: int, compressed: bool)

  type Directory = map<FileName, seq<Line>>

  datatype AuditError = IntegrityError

  /** What verifying a file yields: the hash its next record must link to, and its ids. */
  datatype Chain = Chain(tail: string, ids: set<string>)

  predicate Links(digest: Digest, chain: Chain, line: Line) {
    && line.Record?
    && line.body.previous == chain.tail && line.claimed == digest(line.body)
    && line.body.id != "" && line.body.id !in chain.ids
  }

  function Extended(chain: Chain, line: Line): Chain
    requires line.Record?
  {
    Chain(line.claimed, chain.ids + {line.body.id})
  }

  function Verified(digest: Digest, lines: seq<Line>): Option<Chain>
    decreases |lines|
  {
    if lines == [] then Some(Chain(GENESIS, {}))
    else
      var before, last := Verified(digest, lines[..|lines| - 1]), lines[|lines| - 1];
      if before.None? || !Links(digest, before.value, last) then None
      else Some(Extended(before.value, last))
  }

  lemma {:induction false} VerifiedPrefixes(digest: Digest, lines: seq<Line>, n: nat)
    requires n <= |lines| && Verified(digest, lines).Some?
    ensures Verified(digest, lines[..n]).Some?
    decreases |lines|
  {
    if n == |lines| {
      assert lines[..n] == lines;
    } else {
      VerifiedPrefixes(digest, lines[..|lines| - 1], n);
      assert lines[..|lines| - 1][..n] == lines[..n];
    }
  }

  /** The loop over one file's records. */
  method VerifyFile(digest: Digest, lines: seq<Line>) returns (result: Result<Chain, AuditError>)
    ensures result == if Verified(digest, lines).None? then Err(IntegrityError) else Ok(Verified(digest, lines).value)
  {
    var previous := GENESIS;
    var ids: set<string> := {};
    for i := 0 to |lines|
      invariant Verified(digest, lines[..i]) == Some(Chain(previous, ids))
    {
      assert lines[..i + 1][..i] == lines[..i];
      var line := lines[i];
      if line.Unreadable? || line.body.previous != previous || line.claimed != digest(line.body)
         || line.body.id == "" || line.body.id in ids {
        if Verified(digest, lines).Some? {
          VerifiedPrefixes(digest, lines, i + 1);
          assert false;
        }
        return Err(IntegrityError);
      }
      ids := ids + {line.body.id};
      previous := line.claimed;
    }
    assert lines[..|lines|] == lines;
    return Ok(Chain(previous, ids));
  }

  // ---------------------------------------------------------------------
  // Directories
  // ---------------------------------------------------------------------

  function Lines(files: Directory, f: FileName): seq<Line> {
    if f in files then files[f] else []
  }

  ghost predicate Intact(digest: Digest, files: Directory) {
    forall f :: f in files ==> Verified(digest, files[f]).Some?
  }

  ghost predicate HasId(digest: Digest, files: Directory, f: FileName, id: string) {
    f in files && Verified(digest, files[f]).Some? && id in Verified(digest, files[f]).value.ids
  }

  ghost predicate Share(digest: Digest, files: Directory, f: FileName, g: FileName, id: string) {
    HasId(digest, files, f, id) && HasId(digest, files, g, id)
  }

  /** No id occurs in two files (within a file the chain check already excludes it). */
  ghost predicate UniqueIds(digest: Digest, files: Directory) {
    forall f, g, id :: Share(digest, files, f, g, id) ==> f == g
  }

  ghost predicate DirectoryVerified(digest: Digest, files: Directory) {
    Intact(digest, files) && UniqueIds(digest, files)
  }

  // The ids recorded anywhere in the directory.
  ghost predicate Remembers(digest: Digest, files: Directory, ids: set<string>) {
    forall id :: id in ids <==> exists f :: HasId(digest, files, f, id)
  }

  /** A listing names every audit file of the directory once, in whatever order. */
  ghost predicate Lists(listing: seq<FileName>, files: Directory) {
    && (forall f :: f in listing <==> f in files)
    && (forall i, j :: 0 <= i < j < |listing| ==> listing[i] != listing[j])
  }

  // The ids of all listed files, as long as each verifies and shares none with the earlier.
  function Gathered(digest: Digest, files: Directory, listing: seq<FileName>): Option<set<string>>
    decreases |listing|
  {
    if listing == [] then Some({})
    else
      var before := Gathered(digest, files, listing[..|listing| - 1]);
      var chain := Verified(digest, Lines(files, listing[|listing| - 1]));
      if before.None? || chain.None? || chain.value.ids * before.value != {} then None
      else Some(before.value + chain.value.ids)
  }

  lemma {:induction false} GatheringStops(digest: Digest, files: Directory, listing: seq<FileName>, n: nat)
    requires n <= |listing| && Gathered(digest, files, listing[..n]).None?
    ensures Gathered(digest, files, listing).None?
    decreases |listing|
  {
    if n == |listing| {
      assert listing[..n] == listing;
    } else {
      assert listing[..|listing| - 1][..n] == listing[..n];
      GatheringStops(digest, files, listing[..|listing| - 1], n);
    }
  }

  /** Gathering succeeds exactly on a verified set of files, and then yields all their ids. */
  lemma {:induction false} GatheringMeans(digest: Digest, files: Directory, listing: seq<FileName>)
    requires forall i :: 0 <= i < |listing| ==> listing[i] in files
    requires forall i, j :: 0 <= i < j < |listing| ==> listing[i] != listing[j]
    ensures Gathered(digest, files, listing).Some? <==>
              && (forall f :: f in listing ==> Verified(digest, Lines(files, f)).Some?)
              && (forall f, g, id :: f in listing && g in listing && Share(digest, files, f, g, id) ==> f == g)
    ensures Gathered(digest, files, listing).Some? ==>
              forall id :: id in Gathered(digest, files, listing).value <==> exists f :: f in listing && HasId(digest, files, f, id)
    decreases |listing|
  {
    if listing != [] {
      var before, last := listing[..|listing| - 1], listing[|listing| - 1];
      assert listing == before + [last];
      GatheringMeans(digest, files, before);
      var gathered, chain := Gathered(digest, files, before), Verified(digest, Lines(files, last));
      if gathered.Some? && chain.Some? {
        forall id ensures HasId(digest, files, last, id) <==> id in chain.value.ids {
        }
        if chain.value.ids * gathered.value != {} {
          var id :| id in chain.value.ids * gathered.value;
          var f :| f in before && HasId(digest, files, f, id);
          assert Share(digest, files, f, last, id) && f != last;
        } else {
          GatheringOneMore(digest, files, before, last);
        }
      }
    }
  }

  lemma {:induction false} GatheringOneMore(digest: Digest, files: Directory, before: seq<FileName>, last: FileName)
    requires last in files && last !in before
    requires Gathered(digest, files, before).Some? && Verified(digest, files[last]).Some?
    requires forall id :: id in Gathered(digest, files, before).value <==> exists f :: f in before && HasId(digest, files, f, id)
    requires Verified(digest, files[last]).value.ids * Gathered(digest, files, before).value == {}
    requires forall f, g, id :: f in before && g in before && Share(digest, files, f, g, id) ==> f == g
    ensures forall f, g, id :: f in before + [last] && g in before + [last] && Share(digest, files, f, g, id) ==> f == g
    ensures forall id :: id in Gathered(digest, files, before).value + Verified(digest, files[last]).value.ids
              <==> exists f :: f in before + [last] && HasId(digest, files, f, id)
  {
    var gathered, ids := Gathered(digest, files, before).value, Verified(digest, files[last]).value.ids;
    forall f, id | f in before && HasId(digest, files, f, id) ensures !HasId(digest, files, last, id) {
      assert id in gathered && id !in ids * gathered;
    }
    forall id ensures id in gathered + ids <==> exists f :: f in before + [last] && HasId(digest, files, f, id) {
      if id in ids {
        assert last in before + [last] && HasId(digest, files, last, id);
      }
      if id in gathered {
        var f :| f in before && HasId(digest, files, f, id);
        assert f in before + [last];
      }
    }
  }

  lemma GatheringVerifies(digest: Digest, files: Directory, listing: seq<FileName>)
    requires Lists(listing, files)
    ensures Gathered(digest, files, listing).Some? <==> DirectoryVerified(digest, files)
    ensures Gathered(digest, files, listing).Some? ==> Remembers(digest, files, Gathered(digest, files, listing).value)
  {
    GatheringMeans(digest, files, listing);
    if Gathered(digest, files, listing).Some? {
      forall f | f in files ensures Verified(digest, files[f]).Some? {
        assert f in listing;
      }
    }
  }

  // ---------------------------------------------------------------------
  // Appending
  // ---------------------------------------------------------------------

  function ResolvedId(id: Option<string>, fallback: string): string {
    if id.Some? && id.value != "" then id.value else fallback
  }

  function NewRecord(digest: Digest, id: string, content: string, previous: string): Line {
    var body := Body(id, content, previous);
    Record(body, digest(body))
  }

  datatype LogState = LogState(files: Directory, ids: set<string>)

  function Appended(digest: Digest, s: LogState, id: string, content: string, today: int)
    : (LogState, Result<string, AuditError>)
  {
    if id in s.ids then (s, Ok(id))
    else
      var target := FileName(today, false);
      var chain := Verified(digest, Lines(s.files, target));
      if chain.None? then (s, Err(IntegrityError))
      else
        (LogState(s.files[target := Lines(s.files, target) + [NewRecord(digest, id, content, chain.value.tail)]], s.ids + {id}),
         Ok(id))
  }

  // ---------------------------------------------------------------------
  // Rotation
  // ---------------------------------------------------------------------

  datatype Ages = Ages(today: int, compressAfter: int, deleteAfter: int)

  predicate Expires(ages: Ages, day: int) {
    day < ages.today && day <= ages.today - ages.deleteAfter
  }

  predicate Compresses(ages: Ages, f: FileName) {
    !f.compressed && f.day < ages.today && f.day <= ages.today - ages.compressAfter
  }

  datatype Rotation = Rotation(files: Directory, compressed: nat, deleted: nat, failed: bool)

  function Rotated(digest: Digest, r: Rotation, f: FileName, ages: Ages): Rotation {
    if r.failed || f !in r.files then r
    else if Expires(ages, f.day) then r.(files := r.files - {f}, deleted := r.deleted + 1)
    else if Compresses(ages, f) then
      if Verified(digest, r.files[f]).None? then r.(failed := true)
      else r.(files := (r.files - {f})[FileName(f.day, true) := r.files[f]], compressed := r.compressed + 1)
    else r
  }

  function RotatedAll(digest: Digest, files: Directory, listing: seq<FileName>, ages: Ages): Rotation
    decreases |listing|
  {
    if listing == [] then Rotation(files, 0, 0, false)
    else Rotated(digest, RotatedAll(digest, files, listing[..|listing| - 1], ages), listing[|listing| - 1], ages)
  }

  class AuditLog {
    const digest: Digest
    var files: Directory
    var recordIds: set<string>

    function View(): LogState
      reads this
    {
      LogState(files, recordIds)
    }

    constructor (digest: Digest, files: Directory)
      ensures this.digest == digest && View() == LogState(files, {})
    {
      this.digest := digest;
      this.files := files;
      recordIds := {};
    }

    // The loop over the files; `listing` names files of the directory.
    method GatherIds(listing: seq<FileName>) returns (all: Option<set<string>>)
      requires forall i :: 0 <= i < |listing| ==> listing[i] in files
      ensures all == Gathered(digest, files, listing)
    {
      var ids: set<string> := {};
      for i := 0 to |listing|
        invariant Gathered(digest, files, listing[..i]) == Some(ids)
      {
        assert listing[..i + 1][..i] == listing[..i];
        var verified := VerifyFile(digest, files[listing[i]]);
        if verified.Err? || verified.value.ids * ids != {} {
          GatheringStops(digest, files, listing, i + 1);
          return None;
        }
        ids := ids + verified.value.ids;
      }
      assert listing[..|listing|] == listing;
      return Some(ids);
    }

    /** Opening a log is constructing it and verifying what the directory holds. */
    method VerifyAll(listing: seq<FileName>) returns (result: Result<(), AuditError>)
      requires Lists(listing, files)
      modifies this`recordIds
      ensures result.Ok? <==> DirectoryVerified(digest, files)
      ensures result.Ok? ==> Remembers(digest, files, recordIds) && Gathered(digest, files, listing) == Some(recordIds)
      ensures result.Err? ==> recordIds == old(recordIds)
    {
      GatheringVerifies(digest, files, listing);
      var all := GatherIds(listing);
      if all.None? {
        return Err(IntegrityError);
      }
      recordIds := all.value;
      return Ok(());
    }

    method Append(id: Option<string>, fallback: string, content: string, today: int)
      returns (result: Result<string, AuditError>)
      modifies this
      ensures (View(), result) == Appended(digest, old(View()), ResolvedId(id, fallback), content, today)
    {
      var resolved := ResolvedId(id, fallback);
      if resolved in recordIds {
        return Ok(resolved);
      }
      var target := FileName(today, false);
      var previous := GENESIS;
      if target in files {
        var verified := VerifyFile(digest, files[target]);
        if verified.Err? {
          return Err(IntegrityError);
        }
        previous := verified.value.tail;
      }
      files := files[target := Lines(files, target) + [NewRecord(digest, resolved, content, previous)]];
      recordIds := recordIds + {resolved};
      return Ok(resolved);
    }

    method RotateFiles(listing: seq<FileName>, ages: Ages) returns (rotation: Rotation)
      requires Lists(listing, files)
      modifies this`files
      ensures rotation == RotatedAll(digest, old(files), listing, ages) && files == rotation.files
    {
      var compressed, deleted := 0, 0;
      for i := 0 to |listing|
        invariant RotatedAll(digest, old(files), listing[..i], ages) == Rotation(files, compressed, deleted, false)
        invariant forall j :: i <= j < |listing| ==> listing[j] in files
      {
        var f := listing[i];
        ghost var before := Rotation(files, compressed, deleted, false);
        OneFileMore(digest, old(files), listing, i, ages);
        if f.day >= ages.today {
          continue;
        }
        if f.day <= ages.today - ages.deleteAfter {
          files := files - {f};
          deleted := deleted + 1;
          continue;
        }
        if !f.compressed && f.day <= ages.today - ages.compressAfter {
          var verified := VerifyFile(digest, files[f]);
          if verified.Err? {
            FailureIsFinal(digest, old(files), listing, i + 1, ages);
            return Rotation(files, compressed, deleted, true);
          }
          files := (files - {f})[FileName(f.day, true) := files[f]];
          compressed := compressed + 1;
        }
        assert Rotation(files, compressed, deleted, false) == Rotated(digest, before, f, ages);
      }
      assert listing[..|listing|] == listing;
      return Rotation(files, compressed, deleted, false);
    }

    /** `listing` is the directory as rotation finds it, `after` as the final check does. */
    method RotateAndRetain(listing: seq<FileName>, after: seq<FileName>, ages: Ages)
      returns (result: Result<(nat, nat), AuditError>)
      requires Lists(listing, files) && Lists(after, RotatedAll(digest, files, listing, ages).files)
      modifies this
      ensures var rotation := RotatedAll(digest, old(files), listing, ages);
              && files == rotation.files
              && (result.Ok? <==> !rotation.failed && DirectoryVerified(digest, files))
              && (result.Ok? ==> result.value == (rotation.compressed, rotation.deleted)
                                 && Gathered(digest, files, after) == Some(recordIds))
              && (result.Err? ==> recordIds == old(recordIds))
    {
      var rotation := RotateFiles(listing, ages);
      if rotation.failed {
        return Err(IntegrityError);
      }
      var verified := VerifyAll(after);
      if verified.Err? {
        return Err(IntegrityError);
      }
      return Ok((rotation.compressed, rotation.deleted));
    }
  }

  lemma OneFileMore(digest: Digest, files: Directory, listing: seq<FileName>, i: nat, ages: Ages)
    requires i < |listing|
    ensures RotatedAll(digest, files, listing[..i + 1], ages)
            == Rotated(digest, RotatedAll(digest, files, listing[..i], ages), listing[i], ages)
  {
    assert listing[..i + 1][..i] == listing[..i];
  }

  lemma {:induction false} FailureIsFinal(digest: Digest, files: Directory, listing: seq<FileName>, n: nat, ages: Ages)
    requires n <= |listing| && RotatedAll(digest, files, listing[..n], ages).failed
    ensures RotatedAll(digest, files, listing, ages) == RotatedAll(digest, files, listing[..n], ages)
    decreases |listing|
  {
    if n == |listing| {
      assert listing[..n] == listing;
    } else {
      assert listing[..|listing| - 1][..n] == listing[..n];
      FailureIsFinal(digest, files, listing[..|listing| - 1], n, ages);
    }
  }

  // ---------------------------------------------------------------------
  // What the chain pins down
  // ---------------------------------------------------------------------

  ghost predicate CollisionFree(digest: Digest) {
    && (forall a, b :: digest(a) == digest(b) ==> a == b)
    && (forall a :: digest(a) != GENESIS)
  }

  /** The hash of the last record determines the whole file: with a collision-free digest
      two verified files that end in the same hash hold the same records. */
  lemma {:induction false} TailDeterminesFile(digest: Digest, a: seq<Line>, b: seq<Line>)
    requires CollisionFree(digest)
    requires Verified(digest, a).Some? && Verified(digest, b).Some?
    requires Verified(digest, a).value.tail == Verified(digest, b).value.tail
    ensures a == b
    decreases |a|
  {
    if a != [] && b != [] {
      var lastA, lastB := a[|a| - 1], b[|b| - 1];
      assert lastA == lastB;
      TailDeterminesFile(digest, a[..|a| - 1], b[..|b| - 1]);
      assert a == a[..|a| - 1] + [lastA] && b == b[..|b| - 1] + [lastB];
    }
  }

  /** The ids of a verified file are exactly those of its records, each once. */
  lemma {:induction false} VerifiedIds(digest: Digest, lines: seq<Line>)
    requires Verified(digest, lines).Some?
    ensures forall i :: 0 <= i < |lines| ==> lines[i].Record? && lines[i].body.id in Verified(digest, lines).value.ids
    ensures forall id :: id in Verified(digest, lines).value.ids ==>
              exists i :: 0 <= i < |lines| && lines[i].Record? && lines[i].body.id == id
    ensures forall i, j :: 0 <= i < j < |lines| ==>
              lines[i].Record? && lines[j].Record? && lines[i].body.id != lines[j].body.id
    decreases |lines|
  {
    if lines != [] {
      var n := |lines| - 1;
      VerifiedIds(digest, lines[..n]);
      forall id | id in Verified(digest, lines).value.ids
        ensures exists i :: 0 <= i < |lines| && lines[i].Record? && lines[i].body.id == id
      {
        if id != lines[n].body.id {
          var i :| 0 <= i < n && lines[..n][i].Record? && lines[..n][i].body.id == id;
          assert lines[i] == lines[..n][i];
        } else {
          assert lines[n].Record?;
        }
      }
      forall i, j | 0 <= i < j < |lines|
        ensures lines[i].Record? && lines[j].Record? && lines[i].body.id != lines[j].body.id
      {
        assert lines[i] == lines[..n][i];
        if j < n {
          assert lines[j] == lines[..n][j];
        }
      }
    }
  }

  // ---------------------------------------------------------------------
  // Runs under a monotone clock
  // ---------------------------------------------------------------------

  datatype LogOp =
    | Append(id: string, content: string, today: int)
    | Rotate(listing: seq<FileName>, after: seq<FileName>, ages: Ages)

  function Day(op: LogOp): int {
    if op.Append? then op.today else op.ages.today
  }

  /** A directory as a monotone clock leaves it: verified, remembered, one file a day, and
      nothing compressed or dated beyond what the clock has reached. */
  ghost predicate Settled(digest: Digest, s: LogState, day: int) {
    && DirectoryVerified(digest, s.files) && Remembers(digest, s.files, s.ids)
    && OneFileADay(s.files)
    && (forall f :: f in s.files ==> f.day <= day && (f.compressed ==> f.day < day))
  }

  ghost predicate OneFileADay(files: Directory) {
    forall f, g :: f in files && g in files && f.day == g.day ==> f == g
  }

  /** What the log holds for a day, compressed or not. */
  function DayLines(files: Directory, day: int): seq<Line> {
    Lines(files, FileName(day, false)) + Lines(files, FileName(day, true))
  }

  // One line appended to a verified file.
  lemma ExtendVerified(digest: Digest, lines: seq<Line>, line: Line)
    ensures Verified(digest, lines).Some? && Links(digest, Verified(digest, lines).value, line) ==>
              Verified(digest, lines + [line]) == Some(Extended(Verified(digest, lines).value, line))
  {
    assert (lines + [line])[..|lines|] == lines;
  }

  /** Appending under a monotone clock never fails: it leaves the directory verified, and
      extends today's file by exactly one record, or nothing at all for a repeated id. */
  lemma AppendKeepsSettled(digest: Digest, s: LogState, day: int, id: string, content: string, today: int)
    requires Settled(digest, s, day) && day <= today && id != ""
    ensures var (s', result) := Appended(digest, s, id, content, today);
            && result == Ok(id) && Settled(digest, s', today) && id in s'.ids
            && (id in s.ids ==> s' == s)
            && (id !in s.ids ==>
                  && Verified(digest, DayLines(s.files, today)).Some?
                  && var tail := Verified(digest, DayLines(s.files, today)).value.tail;
                  && DayLines(s'.files, today) == DayLines(s.files, today) + [NewRecord(digest, id, content, tail)]
                  && forall other :: other != today ==> DayLines(s'.files, other) == DayLines(s.files, other))
  {
    if id !in s.ids {
      var target := FileName(today, false);
      var before := Lines(s.files, target);
      assert Verified(digest, before).Some?;
      var chain := Verified(digest, before).value;
      var line := NewRecord(digest, id, content, chain.tail);
      FreshIdLinks(digest, s, target, id);
      ExtendVerified(digest, before, line);
      AppendedIds(digest, s, target, line);
      var files := s.files[target := before + [line]];
      if FileName(today, true) in s.files {
        assert false;
      }
      assert DayLines(s.files, today) == before && DayLines(files, today) == before + [line];
    }
  }

  // An id that the log does not remember is in no file.
  lemma FreshIdLinks(digest: Digest, s: LogState, target: FileName, id: string)
    requires Remembers(digest, s.files, s.ids) && Intact(digest, s.files) && id !in s.ids
    ensures Verified(digest, Lines(s.files, target)).Some?
    ensures id !in Verified(digest, Lines(s.files, target)).value.ids
  {
    if target in s.files {
      assert !HasId(digest, s.files, target, id);
    }
  }

  lemma AppendedIds(digest: Digest, s: LogState, target: FileName, line: Line)
    requires DirectoryVerified(digest, s.files) && Remembers(digest, s.files, s.ids)
    requires line.Record? && line.body.id !in s.ids
    requires Verified(digest, Lines(s.files, target)).Some?
    requires Links(digest, Verified(digest, Lines(s.files, target)).value, line)
    ensures var files := s.files[target := Lines(s.files, target) + [line]];
            DirectoryVerified(digest, files) && Remembers(digest, files, s.ids + {line.body.id})
  {
    var files := s.files[target := Lines(s.files, target) + [line]];
    var id := line.body.id;
    ExtendVerified(digest, Lines(s.files, target), line);
    forall f, i ensures HasId(digest, files, f, i) <==> HasId(digest, s.files, f, i) || (f == target && i == id) {
      assert f != target ==> Lines(files, f) == Lines(s.files, f);
    }
    forall f, g, i | Share(digest, files, f, g, i) ensures f == g {
      assert i != id ==> Share(digest, s.files, f, g, i);
      assert i == id ==> !HasId(digest, s.files, f, i) && !HasId(digest, s.files, g, i);
    }
    forall i ensures i in s.ids + {id} <==> exists f :: HasId(digest, files, f, i) {
      if i == id {
        assert HasId(digest, files, target, i);
      }
      if i in s.ids {
        var f :| HasId(digest, s.files, f, i);
        assert HasId(digest, files, f, i);
      }
    }
  }

  // ---------------------------------------------------------------------
  // What rotation does to one day
  // ---------------------------------------------------------------------

  // The plain file of a day that rotation is about to compress.
  predicate Due(ages: Ages, listing: seq<FileName>, day: int) {
    FileName(day, false) in listing && Compresses(ages, FileName(day, false))
  }

  // A day's two possible files after the listed files have been visited.
  ghost predicate DayAfter(files: Directory, rotated: Directory, listing: seq<FileName>, ages: Ages, day: int) {
    var plain, compressed := FileName(day, false), FileName(day, true);
    if Expires(ages, day) then
      && (plain in rotated <==> plain in files && plain !in listing)
      && (compressed in rotated <==> compressed in files && compressed !in listing)
      && Keeps(files, rotated, plain) && Keeps(files, rotated, compressed)
    else if Due(ages, listing, day) then
      plain !in rotated && compressed in rotated && rotated[compressed] == Lines(files, plain)
    else
      && (plain in rotated <==> plain in files) && (compressed in rotated <==> compressed in files)
      && Keeps(files, rotated, plain) && Keeps(files, rotated, compressed)
  }

  ghost predicate Keeps(files: Directory, rotated: Directory, f: FileName) {
    f in rotated && f in files ==> rotated[f] == files[f]
  }

  lemma {:induction false} RotationByDay(digest: Digest, files: Directory, listing: seq<FileName>, ages: Ages, day: int)
    requires Intact(digest, files)
    requires forall i :: 0 <= i < |listing| ==> listing[i] in files
    requires forall i, j :: 0 <= i < j < |listing| ==> listing[i] != listing[j]
    ensures var r := RotatedAll(digest, files, listing, ages);
            !r.failed && DayAfter(files, r.files, listing, ages, day)
    decreases |listing|
  {
    if listing != [] {
      var before, last := listing[..|listing| - 1], listing[|listing| - 1];
      assert listing == before + [last];
      RotationByDay(digest, files, before, ages, day);
      RotationByDay(digest, files, before, ages, last.day);
      var r := RotatedAll(digest, files, before, ages);
      assert last !in before;
      VisitIsByDay(digest, files, r, before, last, ages, day);
    }
  }

  lemma VisitIsByDay(digest: Digest, files: Directory, r: Rotation, before: seq<FileName>, last: FileName, ages: Ages,
                     day: int)
    requires Intact(digest, files) && last in files && last !in before && !r.failed
    requires DayAfter(files, r.files, before, ages, day) && DayAfter(files, r.files, before, ages, last.day)
    ensures var r' := Rotated(digest, r, last, ages);
            !r'.failed && DayAfter(files, r'.files, before + [last], ages, day)
  {
    if last.compressed {
      assert last == FileName(last.day, true);
    } else {
      assert last == FileName(last.day, false);
    }
  }

  // Rotation would overwrite records: a file due for compression already has a compressed one.
  predicate Clashes(files: Directory, ages: Ages, day: int) {
    && FileName(day, false) in files && Compresses(ages, FileName(day, false))
    && Lines(files, FileName(day, true)) != []
  }

  /** Rotation of an intact directory never fails; it deletes exactly the expired days, and
      leaves a surviving day's records unchanged exactly when the day does not clash. */
  lemma {:induction false} RotationKeepsSurvivors(digest: Digest, files: Directory, listing: seq<FileName>,
                                                  ages: Ages, day: int)
    requires Intact(digest, files) && Lists(listing, files)
    ensures var r := RotatedAll(digest, files, listing, ages);
            && !r.failed
            && (Expires(ages, day) ==> DayLines(r.files, day) == [] && forall f :: f in r.files ==> f.day != day)
            && (!Expires(ages, day) ==>
                  (DayLines(r.files, day) == DayLines(files, day) <==> !Clashes(files, ages, day)))
  {
    RotationByDay(digest, files, listing, ages, day);
    var plain, compressed := FileName(day, false), FileName(day, true);
    assert plain in listing <==> plain in files;
    var r := RotatedAll(digest, files, listing, ages);
    forall f | f in r.files && f.day == day ensures f == plain || f == compressed {
    }
    assert |DayLines(files, day)| == |Lines(files, plain)| + |Lines(files, compressed)|;
    assert Due(ages, listing, day) && !Expires(ages, day) ==> DayLines(r.files, day) == Lines(files, plain);
  }

  // Where the lines of a rotated file were before.
  lemma RotatedOrigin(digest: Digest, files: Directory, listing: seq<FileName>, ages: Ages, g: FileName)
    requires Intact(digest, files) && Lists(listing, files)
    requires g in RotatedAll(digest, files, listing, ages).files
    ensures exists f :: f in files && f.day == g.day && files[f] == RotatedAll(digest, files, listing, ages).files[g]
              && (g.compressed && !f.compressed ==> g.day < ages.today)
              && (f.compressed ==> g.compressed)
  {
    RotationByDay(digest, files, listing, ages, g.day);
    var plain, compressed := FileName(g.day, false), FileName(g.day, true);
    assert g == plain || g == compressed;
    if Due(ages, listing, g.day) {
      assert plain in files;
    } else {
      assert g in files;
    }
  }

  /** Rotation keeps the directory as a monotone clock leaves it. */
  lemma RotateKeepsSettled(digest: Digest, s: LogState, day: int, listing: seq<FileName>, ages: Ages)
    requires Settled(digest, s, day) && day <= ages.today && Lists(listing, s.files)
    ensures var r := RotatedAll(digest, s.files, listing, ages);
            && !r.failed && DirectoryVerified(digest, r.files) && OneFileADay(r.files)
            && forall f :: f in r.files ==> f.day <= ages.today && (f.compressed ==> f.day < ages.today)
  {
    var r := RotatedAll(digest, s.files, listing, ages);
    RotationByDay(digest, s.files, listing, ages, 0);
    forall g | g in r.files
      ensures Verified(digest, r.files[g]).Some? && g.day <= ages.today && (g.compressed ==> g.day < ages.today)
    {
      RotatedOrigin(digest, s.files, listing, ages, g);
    }
    forall g, h | g in r.files && h in r.files && g.day == h.day ensures g == h {
      RotatedVariants(digest, s.files, listing, ages, g, h);
    }
    forall g, h, id | Share(digest, r.files, g, h, id) ensures g == h {
      RotatedOrigin(digest, s.files, listing, ages, g);
      RotatedOrigin(digest, s.files, listing, ages, h);
      var f :| f in s.files && f.day == g.day && s.files[f] == r.files[g];
      var e :| e in s.files && e.day == h.day && s.files[e] == r.files[h];
      assert Share(digest, s.files, f, e, id);
      RotatedVariants(digest, s.files, listing, ages, g, h);
    }
  }

  lemma RotatedVariants(digest: Digest, files: Directory, listing: seq<FileName>, ages: Ages, g: FileName, h: FileName)
    requires Intact(digest, files) && Lists(listing, files) && OneFileADay(files)
    requires g in RotatedAll(digest, files, listing, ages).files && h in RotatedAll(digest, files, listing, ages).files
    requires g.day == h.day
    ensures g == h
  {
    RotationByDay(digest, files, listing, ages, g.day);
    var plain, compressed := FileName(g.day, false), FileName(g.day, true);
    assert (g == plain || g == compressed) && (h == plain || h == compressed);
    if plain in files && compressed in files {
      assert false;
    }
  }

  // ---------------------------------------------------------------------
  // Whole runs
  // ---------------------------------------------------------------------

  function Step(digest: Digest, s: LogState, op: LogOp): LogState {
    match op
    case Append(id, content, today) => Appended(digest, s, id, content, today).0
    case Rotate(listing, after, ages) =>
      var r := RotatedAll(digest, s.files, listing, ages);
      var ids := Gathered(digest, r.files, after);
      LogState(r.files, if r.failed || ids.None? then s.ids else ids.value)
  }

  function Run(digest: Digest, s: LogState, ops: seq<LogOp>): LogState
    decreases |ops|
  {
    if ops == [] then s else Step(digest, Run(digest, s, ops[..|ops| - 1]), ops[|ops| - 1])
  }

  // The day the clock has reached after the operations.
  function Reached(start: int, ops: seq<LogOp>): int {
    if ops == [] then start else Day(ops[|ops| - 1])
  }

  ghost predicate Possible(digest: Digest, s: LogState, op: LogOp, day: int) {
    && day <= Day(op)
    && (op.Append? ==> op.id != "")
    && (op.Rotate? ==> Lists(op.listing, s.files)
                       && Lists(op.after, RotatedAll(digest, s.files, op.listing, op.ages).files))
  }

  ghost predicate PossibleRun(digest: Digest, s: LogState, ops: seq<LogOp>, start: int) {
    forall i :: 0 <= i < |ops| ==> Possible(digest, Run(digest, s, ops[..i]), ops[i], Reached(start, ops[..i]))
  }

  lemma StepKeepsSettled(digest: Digest, s: LogState, op: LogOp, day: int)
    requires Settled(digest, s, day) && Possible(digest, s, op, day)
    ensures Settled(digest, Step(digest, s, op), Day(op))
  {
    match op {
      case Append(id, content, today) =>
        AppendKeepsSettled(digest, s, day, id, content, today);
      case Rotate(listing, after, ages) =>
        RotateKeepsSettled(digest, s, day, listing, ages);
        GatheringVerifies(digest, RotatedAll(digest, s.files, listing, ages).files, after);
    }
  }

  /** One operation leaves a day's records as they are, adds one record at their end, or
      deletes the whole day because it has expired. */
  lemma StepKeepsHistory(digest: Digest, s: LogState, op: LogOp, day: int, d: int)
    requires Settled(digest, s, day) && Possible(digest, s, op, day)
    requires op.Rotate? ==> !Expires(op.ages, d)
    ensures DayLines(s.files, d) <= DayLines(Step(digest, s, op).files, d)
    ensures d != Day(op) || op.Rotate? ==> DayLines(Step(digest, s, op).files, d) == DayLines(s.files, d)
  {
    match op {
      case Append(id, content, today) =>
        AppendKeepsSettled(digest, s, day, id, content, today);
      case Rotate(listing, after, ages) =>
        RotationKeepsSurvivors(digest, s.files, listing, ages, d);
        assert Clashes(s.files, ages, d) ==> FileName(d, true) in s.files && FileName(d, false) in s.files;
        if Clashes(s.files, ages, d) {
          assert false;
        }
    }
  }

  ghost predicate Spared(ops: seq<LogOp>, from: nat, d: int) {
    forall i :: from <= i < |ops| && ops[i].Rotate? ==> !Expires(ops[i].ages, d)
  }

  lemma PossiblePrefix(digest: Digest, s: LogState, ops: seq<LogOp>, start: int, n: nat)
    requires PossibleRun(digest, s, ops, start) && n <= |ops|
    ensures PossibleRun(digest, s, ops[..n], start)
  {
    forall i | 0 <= i < n
      ensures Possible(digest, Run(digest, s, ops[..n][..i]), ops[..n][i], Reached(start, ops[..n][..i]))
    {
      assert ops[..n][..i] == ops[..i];
      assert Possible(digest, Run(digest, s, ops[..i]), ops[i], Reached(start, ops[..i]));
    }
  }

  /** Main result: however appends and rotations are interleaved under a monotone clock, the
      directory stays verified and no id is ever recorded twice. */
  lemma {:induction false} EveryLogIsSettled(digest: Digest, s: LogState, ops: seq<LogOp>, start: int)
    requires Settled(digest, s, start) && PossibleRun(digest, s, ops, start)
    ensures Settled(digest, Run(digest, s, ops), Reached(start, ops))
    decreases |ops|
  {
    if ops != [] {
      var n := |ops| - 1;
      PossiblePrefix(digest, s, ops, start, n);
      EveryLogIsSettled(digest, s, ops[..n], start);
      assert Possible(digest, Run(digest, s, ops[..n]), ops[n], Reached(start, ops[..n]));
      StepKeepsSettled(digest, Run(digest, s, ops[..n]), ops[n], Reached(start, ops[..n]));
    }
  }

  // The last operation of a possible run meets a settled log.
  lemma LastStep(digest: Digest, s: LogState, ops: seq<LogOp>, start: int)
    requires Settled(digest, s, start) && PossibleRun(digest, s, ops, start) && ops != []
    ensures var n := |ops| - 1;
            && PossibleRun(digest, s, ops[..n], start)
            && Settled(digest, Run(digest, s, ops[..n]), Reached(start, ops[..n]))
            && Possible(digest, Run(digest, s, ops[..n]), ops[n], Reached(start, ops[..n]))
  {
    var n := |ops| - 1;
    PossiblePrefix(digest, s, ops, start, n);
    EveryLogIsSettled(digest, s, ops[..n], start);
    assert Possible(digest, Run(digest, s, ops[..n]), ops[n], Reached(start, ops[..n]));
  }

  // The last operation keeps the history of every day it spares.
  lemma LastStepKeepsHistory(digest: Digest, s: LogState, ops: seq<LogOp>, start: int, d: int)
    requires Settled(digest, s, start) && PossibleRun(digest, s, ops, start) && ops != []
    requires ops[|ops| - 1].Rotate? ==> !Expires(ops[|ops| - 1].ages, d)
    ensures DayLines(Run(digest, s, ops[..|ops| - 1]).files, d) <= DayLines(Run(digest, s, ops).files, d)
  {
    var n := |ops| - 1;
    LastStep(digest, s, ops, start);
    StepKeepsHistory(digest, Run(digest, s, ops[..n]), ops[n], Reached(start, ops[..n]), d);
  }

  /** And history is append-only: what the log holds for a day at any point of a run is still
      the beginning of what it holds for that day at the end, unless the day has expired. */
  lemma {:induction false} HistoryIsAppendOnly(digest: Digest, s: LogState, ops: seq<LogOp>, start: int, from: nat,
                                               d: int)
    requires Settled(digest, s, start) && PossibleRun(digest, s, ops, start)
    requires from <= |ops| && Spared(ops, from, d)
    ensures DayLines(Run(digest, s, ops[..from]).files, d) <= DayLines(Run(digest, s, ops).files, d)
    decreases |ops|
  {
    if from == |ops| {
      assert ops[..from] == ops;
    } else {
      var before := ops[..|ops| - 1];
      PossiblePrefix(digest, s, ops, start, |before|);
      assert Spared(before, from, d) by {
        assert forall i :: from <= i < |before| ==> before[i] == ops[i];
      }
      assert before[..from] == ops[..from];
      HistoryIsAppendOnly(digest, s, before, start, from, d);
      LastStepKeepsHistory(digest, s, ops, start, d);
    }
  }

  // A log of two days: the one record of day 5 was compressed on day 6.
  function Archived(digest: Digest): LogState {
    LogState(map[FileName(5, true) := [NewRecord(digest, "a", "", GENESIS)]], {"a"})
  }

  // A directory of one verified file.
  lemma OneFileIsVerified(digest: Digest, f: FileName, lines: seq<Line>)
    requires Verified(digest, lines).Some?
    ensures DirectoryVerified(digest, map[f := lines])
    ensures Remembers(digest, map[f := lines], Verified(digest, lines).value.ids)
  {
    var files := map[f := lines];
    forall id ensures id in Verified(digest, lines).value.ids <==> HasId(digest, files, f, id) {
    }
  }

  lemma ArchivedIsSettled(digest: Digest)
    ensures Settled(digest, Archived(digest), 6)
  {
    var first := NewRecord(digest, "a", "", GENESIS);
    ExtendVerified(digest, [], first);
    assert [] + [first] == [first] && {} + {"a"} == {"a"};
    OneFileIsVerified(digest, FileName(5, true), [first]);
  }

  /** With a clock that goes back, history is lost: a record appended to a day already
      compressed starts a new file, and the next rotation puts it in the place of the old. */
  lemma RewoundClockLosesRecords(digest: Digest)
    ensures Settled(digest, Archived(digest), 6)
    ensures var first, second := NewRecord(digest, "a", "", GENESIS), NewRecord(digest, "b", "", GENESIS);
            var appended := Appended(digest, Archived(digest), "b", "", 5).0;
            var rotated := RotatedAll(digest, appended.files, [FileName(5, false), FileName(5, true)], Ages(7, 1, 30));
            DayLines(appended.files, 5) == [second, first] && DayLines(rotated.files, 5) == [second]
  {
    var first, second := NewRecord(digest, "a", "", GENESIS), NewRecord(digest, "b", "", GENESIS);
    ArchivedIsSettled(digest);
    ExtendVerified(digest, [], second);
    assert [] + [second] == [second];
    var files := Appended(digest, Archived(digest), "b", "", 5).0.files;
    assert files == map[FileName(5, true) := [first], FileName(5, false) := [second]];
    var listing, ages := [FileName(5, false), FileName(5, true)], Ages(7, 1, 30);
    OneFileMore(digest, files, listing, 0, ages);
    OneFileMore(digest, files, listing, 1, ages);
    assert listing[..0] == [] && listing[..2] == listing;
    assert RotatedAll(digest, files, listing[..1], ages).files == map[FileName(5, true) := [second]];
  }
}
