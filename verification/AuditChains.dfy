/** The audit chain read off the lines of a file, and what appending to a log does to them. */
module AuditChains {
  import opened Wrappers
  import opened Audit

  // The hash that the line at an index must link to.
  function LinkAt(lines: seq<Line>, i: nat): string
    requires i <= |lines|
  {
    if i == 0 then GENESIS else if lines[i - 1].Record? then lines[i - 1].claimed else ""
  }

  // A line that is readable, named, unaltered and linked to the one before it.
  ghost predicate SoundAt(digest: Digest, lines: seq<Line>, i: nat)
    requires i < |lines|
  {
    && lines[i].Record? && lines[i].body.id != ""
    && lines[i].claimed == digest(lines[i].body) && lines[i].body.previous == LinkAt(lines, i)
  }

  ghost predicate SameId(lines: seq<Line>, i: nat, j: nat)
    requires i < |lines| && j < |lines|
  {
    lines[i].Record? && lines[j].Record? && lines[i].body.id == lines[j].body.id
  }

  /** An unbroken chain of records, no two of them under one id. */
  ghost predicate Unbroken(digest: Digest, lines: seq<Line>) {
    && (forall i :: 0 <= i < |lines| ==> SoundAt(digest, lines, i))
    && (forall i, j :: 0 <= i < j < |lines| ==> !SameId(lines, i, j))
  }

  function IdsOf(lines: seq<Line>): set<string> {
    set i | 0 <= i < |lines| && lines[i].Record? :: lines[i].body.id
  }

  lemma UnbrokenPrefix(digest: Digest, lines: seq<Line>)
    requires lines != [] && Unbroken(digest, lines)
    ensures Unbroken(digest, lines[..|lines| - 1])
  {
    var n := |lines| - 1;
    forall i | 0 <= i < n ensures SoundAt(digest, lines[..n], i) {
      assert SoundAt(digest, lines, i) && LinkAt(lines[..n], i) == LinkAt(lines, i);
    }
    forall i, j | 0 <= i < j < n ensures !SameId(lines[..n], i, j) {
      assert !SameId(lines, i, j);
    }
  }

  // A sound line under a fresh id behind an unbroken chain.
  lemma UnbrokenExtension(digest: Digest, lines: seq<Line>)
    requires lines != [] && Unbroken(digest, lines[..|lines| - 1])
    requires SoundAt(digest, lines, |lines| - 1) && lines[|lines| - 1].body.id !in IdsOf(lines[..|lines| - 1])
    ensures Unbroken(digest, lines)
  {
    var n := |lines| - 1;
    forall i | 0 <= i < |lines| ensures SoundAt(digest, lines, i) {
      if i < n {
        assert SoundAt(digest, lines[..n], i) && LinkAt(lines[..n], i) == LinkAt(lines, i);
      }
    }
    forall i, j | 0 <= i < j < |lines| ensures !SameId(lines, i, j) {
      assert SoundAt(digest, lines[..n], i);
      assert lines[..n][i].body.id in IdsOf(lines[..n]);
      if j < n {
        assert !SameId(lines[..n], i, j);
      }
    }
  }

  lemma LastIsFresh(digest: Digest, lines: seq<Line>)
    requires lines != [] && Unbroken(digest, lines)
    ensures SoundAt(digest, lines, |lines| - 1) && lines[|lines| - 1].body.id !in IdsOf(lines[..|lines| - 1])
  {
    var n := |lines| - 1;
    assert SoundAt(digest, lines, n);
    forall i | 0 <= i < n && lines[..n][i].Record? ensures lines[..n][i].body.id != lines[n].body.id {
      assert !SameId(lines, i, n);
    }
  }

  lemma IdsOfOneMore(lines: seq<Line>)
    requires lines != [] && lines[|lines| - 1].Record?
    ensures IdsOf(lines) == IdsOf(lines[..|lines| - 1]) + {lines[|lines| - 1].body.id}
  {
    var n := |lines| - 1;
    forall id ensures id in IdsOf(lines) <==> id in IdsOf(lines[..n]) + {lines[n].body.id} {
      if id in IdsOf(lines) {
        var i :| 0 <= i < |lines| && lines[i].Record? && lines[i].body.id == id;
        if i < n {
          assert lines[..n][i].Record?;
        }
      }
      if id in IdsOf(lines[..n]) {
        var i :| 0 <= i < n && lines[..n][i].Record? && lines[..n][i].body.id == id;
        assert lines[i].Record?;
      }
    }
  }

  // What a file amounts to, once it is known to verify.
  function ChainOf(lines: seq<Line>): Chain {
    Chain(LinkAt(lines, |lines|), IdsOf(lines))
  }

  lemma ChainOfOneMore(lines: seq<Line>)
    requires lines != [] && lines[|lines| - 1].Record?
    ensures ChainOf(lines) == Extended(ChainOf(lines[..|lines| - 1]), lines[|lines| - 1])
  {
    IdsOfOneMore(lines);
  }

  // A last line is sound and fresh exactly if it links to what the lines before it amount to.
  lemma SoundLinks(digest: Digest, lines: seq<Line>)
    requires lines != []
    ensures var n := |lines| - 1;
            Links(digest, ChainOf(lines[..n]), lines[n])
            <==> SoundAt(digest, lines, n) && lines[n].body.id !in IdsOf(lines[..n])
  {
    var n := |lines| - 1;
    assert LinkAt(lines[..n], n) == LinkAt(lines, n);
  }

  /** Verifying a file accepts exactly the unbroken chains, and yields the last hash and the ids. */
  lemma {:induction false} ChainsAreExact(digest: Digest, lines: seq<Line>)
    ensures Verified(digest, lines) == if Unbroken(digest, lines) then Some(ChainOf(lines)) else None
    decreases |lines|
  {
    if lines == [] {
      assert ChainOf(lines) == Chain(GENESIS, {});
    } else {
      var n := |lines| - 1;
      ChainsAreExact(digest, lines[..n]);
      SoundLinks(digest, lines);
      if Unbroken(digest, lines) {
        UnbrokenPrefix(digest, lines);
        LastIsFresh(digest, lines);
        ChainOfOneMore(lines);
      } else if Unbroken(digest, lines[..n]) && Links(digest, ChainOf(lines[..n]), lines[n]) {
        UnbrokenExtension(digest, lines);
      }
    }
  }

  /** Appending under a known id changes nothing. Otherwise it fails exactly on a broken file of
      today, changing nothing, and else adds one record behind that file's chain. */
  lemma AppendIsExact(digest: Digest, s: LogState, id: Option<string>, fallback: string, content: string, today: int)
    ensures var (s', result) := Appended(digest, s, ResolvedId(id, fallback), content, today);
            var target := FileName(today, false);
            var lines := Lines(s.files, target);
            var name := ResolvedId(id, fallback);
            && (id.Some? && |id.value| > 0 ==> id == Some(name))
            && (id.None? || |id.value| == 0 ==> name == fallback)
            && (result.Err? <==> name !in s.ids && !Unbroken(digest, lines))
            && (result.Err? || name in s.ids ==> s' == s)
            && (result.Ok? ==> result.value == name && s'.ids == s.ids + {name})
            && (result.Ok? && name !in s.ids ==>
                  && s'.files.Keys == s.files.Keys + {target}
                  && (forall f :: f in s.files && f != target ==> s'.files[f] == s.files[f])
                  && s'.files[target][..|lines|] == lines && |s'.files[target]| == |lines| + 1
                  && var record := s'.files[target][|lines|];
                  && record.Record? && record.body == Body(name, content, LinkAt(lines, |lines|))
                  && record.claimed == digest(record.body))
  {
    ChainsAreExact(digest, Lines(s.files, FileName(today, false)));
  }
}
