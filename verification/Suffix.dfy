/** Suffix replacement on the log cache: keep everything up to a sequence, check what a leader sent, append the rest. */
module Suffix {
  import opened Base
  import opened Keyspace
  import opened LogCache

  ghost predicate Numbered(entries: seq<Entry>, last: u64) {
    && last + |entries| <= U64_MAX
    && forall i :: 0 <= i < |entries| ==> entries[i].sequence == last + 1 + i
  }

  /** The cached entries a replacement keeps. */
  function Kept(cache: seq<Entry>, prefix: u64): seq<Entry> {
    cache[..UpTo(cache, prefix)]
  }

  /** The entries sent for sequences above the prefix. */
  function Above(entries: seq<Entry>, prefix: u64): (r: seq<Entry>)
    ensures |r| <= |entries|
    ensures forall i :: 0 <= i < |r| ==> r[i].sequence > prefix
  {
    if entries == [] then []
    else
      var init, last := entries[..|entries| - 1], entries[|entries| - 1];
      Above(init, prefix) + if last.sequence > prefix then [last] else []
  }

  /** The successive pushes of `push_unique_wal_entry`. */
  function Condense(checksum: Checksum, entries: seq<Entry>): Result<seq<Entry>, EngineError> {
    if entries == [] then Ok([])
    else
      var before := Condense(checksum, entries[..|entries| - 1]);
      if before.Err? then before else PushUnique(checksum, before.value, entries[|entries| - 1])
  }

  /** Entry `i` starts at `prefix + 1`, repeats its predecessor with the same identity, or follows it. */
  predicate Follows(checksum: Checksum, entries: seq<Entry>, prefix: u64, i: nat)
    requires i < |entries|
  {
    if i == 0 then entries[0].sequence == prefix + 1
    else
      || entries[i].sequence == entries[i - 1].sequence + 1
      || (entries[i].sequence == entries[i - 1].sequence
          && IdentityOf(checksum, entries[i]) == IdentityOf(checksum, entries[i - 1]))
  }

  ghost predicate OneByOne(checksum: Checksum, entries: seq<Entry>, prefix: u64) {
    forall i :: 0 <= i < |entries| ==> Follows(checksum, entries, prefix, i)
  }

  /** `c` holds, at the place its sequence says, an entry identified like each of `entries`. */
  ghost predicate Represents(checksum: Checksum, entries: seq<Entry>, prefix: u64, c: seq<Entry>) {
    forall i :: 0 <= i < |entries| ==>
      && prefix < entries[i].sequence <= prefix + |c|
      && IdentityOf(checksum, c[entries[i].sequence - prefix - 1]) == IdentityOf(checksum, entries[i])
  }

  /** `c` is `entries` without its repetitions: numbered from the prefix, every entry represented, nothing else. */
  ghost predicate Condensed(checksum: Checksum, entries: seq<Entry>, prefix: u64, c: seq<Entry>) {
    && Numbered(c, prefix) && Represents(checksum, entries, prefix, c)
    && (forall e :: e in c ==> e in entries)
    && (entries != [] ==> c != [] && c[|c| - 1].sequence == entries[|entries| - 1].sequence)
  }

  /** The pushes number consecutively from the prefix exactly when each entry repeats or follows its predecessor. */
  lemma {:induction false} CondensedExactly(checksum: Checksum, entries: seq<Entry>, prefix: u64)
    requires prefix + |entries| <= U64_MAX && forall i :: 0 <= i < |entries| ==> entries[i].sequence > prefix
    ensures OneByOne(checksum, entries, prefix) <==>
            Condense(checksum, entries).Ok? && Numbered(Condense(checksum, entries).value, prefix)
    ensures OneByOne(checksum, entries, prefix) ==>
            Condensed(checksum, entries, prefix, Condense(checksum, entries).value)
            && |Condense(checksum, entries).value| <= |entries|
  {
    if entries != [] {
      var n := |entries| - 1;
      var init := entries[..n];
      CondensedExactly(checksum, init, prefix);
      assert forall i :: 0 <= i < n ==> Follows(checksum, init, prefix, i) == Follows(checksum, entries, prefix, i);
      if OneByOne(checksum, entries, prefix) {
        assert OneByOne(checksum, init, prefix);
        LastFollows(checksum, entries, prefix);
      } else if Condense(checksum, entries).Ok? && Numbered(Condense(checksum, entries).value, prefix) {
        PrefixNumbered(checksum, entries, prefix);
        LastNumbered(checksum, entries, prefix);
      }
    }
  }

  lemma {:induction false} LastFollows(checksum: Checksum, entries: seq<Entry>, prefix: u64)
    requires entries != [] && prefix + |entries| <= U64_MAX && Follows(checksum, entries, prefix, |entries| - 1)
    requires var init := entries[..|entries| - 1];
             && Condense(checksum, init).Ok? && |Condense(checksum, init).value| <= |init|
             && Condensed(checksum, init, prefix, Condense(checksum, init).value)
    ensures Condense(checksum, entries).Ok? && |Condense(checksum, entries).value| <= |entries|
    ensures Condensed(checksum, entries, prefix, Condense(checksum, entries).value)
  {
    var n := |entries| - 1;
    var e, c := entries[n], Condense(checksum, entries[..n]).value;
    LastHeld(checksum, entries[..n], prefix, c);
    assert n > 0 ==> entries[..n][n - 1] == entries[n - 1];
    if e.sequence == prefix + |c| + 1 {
      CondensedExtends(checksum, entries, prefix, c);
    } else {
      CondensedRepeats(checksum, entries, prefix, c);
    }
  }

  lemma {:induction false} CondensedExtends(checksum: Checksum, entries: seq<Entry>, prefix: u64, c: seq<Entry>)
    requires entries != [] && prefix + |c| < U64_MAX && Condensed(checksum, entries[..|entries| - 1], prefix, c)
    requires entries[|entries| - 1].sequence == prefix + |c| + 1
    ensures Condensed(checksum, entries, prefix, c + [entries[|entries| - 1]])
  {
    var n := |entries| - 1;
    assert forall i :: 0 <= i < n ==> entries[..n][i] == entries[i];
  }

  lemma {:induction false} CondensedRepeats(checksum: Checksum, entries: seq<Entry>, prefix: u64, c: seq<Entry>)
    requires entries != [] && c != [] && Condensed(checksum, entries[..|entries| - 1], prefix, c)
    requires entries[|entries| - 1].sequence == prefix + |c|
    requires IdentityOf(checksum, entries[|entries| - 1]) == IdentityOf(checksum, c[|c| - 1])
    ensures Condensed(checksum, entries, prefix, c)
  {
    var n := |entries| - 1;
    assert forall i :: 0 <= i < n ==> entries[..n][i] == entries[i];
  }

  /** The last of the condensed entries carries the last sequence and identity. */
  lemma {:induction false} LastHeld(checksum: Checksum, entries: seq<Entry>, prefix: u64, c: seq<Entry>)
    requires Condensed(checksum, entries, prefix, c)
    ensures entries == [] ==> c == []
    ensures entries != [] ==>
              && c[|c| - 1].sequence == prefix + |c|
              && IdentityOf(checksum, c[|c| - 1]) == IdentityOf(checksum, entries[|entries| - 1])
  {
    assert c != [] ==> c[0] in c;
  }

  lemma {:induction false} PrefixNumbered(checksum: Checksum, entries: seq<Entry>, prefix: u64)
    requires entries != [] && Condense(checksum, entries).Ok? && Numbered(Condense(checksum, entries).value, prefix)
    ensures Condense(checksum, entries[..|entries| - 1]).Ok?
    ensures Numbered(Condense(checksum, entries[..|entries| - 1]).value, prefix)
  {
    var c, d := Condense(checksum, entries).value, Condense(checksum, entries[..|entries| - 1]).value;
    assert d <= c;
    assert forall i :: 0 <= i < |d| ==> d[i] == c[i];
  }

  lemma {:induction false} LastNumbered(checksum: Checksum, entries: seq<Entry>, prefix: u64)
    requires entries != [] && Condense(checksum, entries).Ok? && Numbered(Condense(checksum, entries).value, prefix)
    requires var init := entries[..|entries| - 1];
             Condense(checksum, init).Ok? && Condensed(checksum, init, prefix, Condense(checksum, init).value)
    ensures Follows(checksum, entries, prefix, |entries| - 1)
  {
    var n := |entries| - 1;
    var c, d := Condense(checksum, entries).value, Condense(checksum, entries[..n]).value;
    LastHeld(checksum, entries[..n], prefix, d);
    if d == [] || entries[n].sequence != d[|d| - 1].sequence {
      assert c[|d|] == entries[n];
    }
  }

  // ---------------------------------------------------------------- the checks

  ghost predicate HoldsLike(checksum: Checksum, entries: seq<Entry>, e: Entry) {
    exists i :: 0 <= i < |entries| && entries[i].sequence == e.sequence
      && IdentityOf(checksum, entries[i]) == IdentityOf(checksum, e)
  }

  /** Every entry sent for a sequence after the baseline and up to the prefix is the entry kept there. */
  ghost predicate Overlaps(checksum: Checksum, kept: seq<Entry>, base: u64, prefix: u64, entries: seq<Entry>) {
    forall i :: 0 <= i < |entries| && base < entries[i].sequence <= prefix ==> HoldsLike(checksum, kept, entries[i])
  }

  /** Everything a replacement demands, as a statement about the cache and the entries sent. */
  ghost predicate Accepts(checksum: Checksum, cache: seq<Entry>, base: u64, prefix: u64, entries: seq<Entry>) {
    var kept := Kept(cache, prefix);
    && base <= prefix
    && (if kept == [] then prefix == base else kept[|kept| - 1].sequence == prefix)
    && Overlaps(checksum, kept, base, prefix, entries)
    && OneByOne(checksum, Above(entries, prefix), prefix)
  }

  /** The log a replacement leaves. */
  ghost function Replaced(checksum: Checksum, cache: seq<Entry>, prefix: u64, entries: seq<Entry>): seq<Entry>
    requires Condense(checksum, Above(entries, prefix)).Ok?
  {
    Kept(cache, prefix) + Condense(checksum, Above(entries, prefix)).value
  }

  lemma {:induction false} AbovePrefix(entries: seq<Entry>, prefix: u64, i: nat)
    requires i <= |entries|
    ensures Above(entries[..i], prefix) <= Above(entries, prefix)
    decreases |entries|
  {
    if i < |entries| {
      assert entries[..|entries| - 1][..i] == entries[..i];
      AbovePrefix(entries[..|entries| - 1], prefix, i);
    } else {
      assert entries[..i] == entries;
    }
  }

  lemma {:induction false} ErrorStays(checksum: Checksum, a: seq<Entry>, b: seq<Entry>)
    requires a <= b && Condense(checksum, a).Err?
    ensures Condense(checksum, b).Err?
    decreases |b|
  {
    if a != b {
      ErrorStays(checksum, a, b[..|b| - 1]);
    }
  }

  lemma {:induction false} PushNone(checksum: Checksum, entries: seq<Entry>, prefix: u64)
    ensures Condense(checksum, Above(entries[..0], prefix)) == Ok([])
  {
  }

  lemma {:induction false} PushNext(checksum: Checksum, entries: seq<Entry>, prefix: u64, i: nat)
    requires i < |entries| && Condense(checksum, Above(entries[..i], prefix)).Ok?
    ensures var before := Condense(checksum, Above(entries[..i], prefix));
            Condense(checksum, Above(entries[..i + 1], prefix)) ==
            if entries[i].sequence > prefix then PushUnique(checksum, before.value, entries[i]) else before
  {
    assert entries[..i + 1][..i] == entries[..i];
    var before, after := Above(entries[..i], prefix), Above(entries[..i + 1], prefix);
    if entries[i].sequence > prefix {
      assert after == before + [entries[i]] && after[..|after| - 1] == before;
    } else {
      assert after == before;
    }
  }

  method Retain(checksum: Checksum, cache: seq<Entry>, prefix: u64) returns (r: Result<seq<Entry>, EngineError>)
    ensures Contiguous(cache) ==> r == Ok(Kept(cache, prefix))
  {
    var kept: seq<Entry> := [];
    ghost var n := UpTo(cache, prefix);
    var i := 0;
    while i < |cache|
      invariant i <= |cache| && (Contiguous(cache) ==> kept == cache[..if i < n then i else n])
    {
      if Contiguous(cache) {
        UpToSplits(cache, prefix, i);
      }
      if cache[i].sequence <= prefix {
        var pushed := PushUnique(checksum, kept, cache[i]);
        if pushed.Err? {
          return Err(pushed.error);
        }
        kept := pushed.value;
      }
      i := i + 1;
    }
    r := Ok(kept);
  }

  method Find(entries: seq<Entry>, sequence: u64) returns (found: Option<Entry>)
    ensures found.None? <==> !HasSequence(entries, sequence)
    ensures found.Some? ==> found.value in entries && found.value.sequence == sequence
  {
    var i := 0;
    while i < |entries|
      invariant i <= |entries| && forall j :: 0 <= j < i ==> entries[j].sequence != sequence
    {
      if entries[i].sequence == sequence {
        return Some(entries[i]);
      }
      i := i + 1;
    }
    found := None;
  }

  /** Is the entry kept at this sequence the one sent? */
  method MatchesKept(checksum: Checksum, kept: seq<Entry>, e: Entry) returns (ok: bool)
    requires Contiguous(kept)
    ensures ok == HoldsLike(checksum, kept, e)
  {
    var found := Find(kept, e.sequence);
    if found.None? {
      return false;
    }
    var local := found.value;
    ghost var j :| 0 <= j < |kept| && kept[j] == local;
    ok := IdentityOf(checksum, local) == IdentityOf(checksum, e);
    assert forall i :: 0 <= i < |kept| && kept[i].sequence == e.sequence ==> i == j;
  }

  /** The overlap check and the pushes, over the entries sent. */
  method CheckSent(checksum: Checksum, kept: seq<Entry>, base: u64, prefix: u64, entries: seq<Entry>)
    returns (r: Result<seq<Entry>, EngineError>)
    requires Contiguous(kept)
    ensures r.Ok? <==> Overlaps(checksum, kept, base, prefix, entries) && Condense(checksum, Above(entries, prefix)).Ok?
    ensures r.Ok? ==> Condense(checksum, Above(entries, prefix)) == r
    ensures r.Err? ==> r.error == InvalidStorageOperation
  {
    hide Condense, Above, HoldsLike, PushUnique;
    var pushed: seq<Entry> := [];
    PushNone(checksum, entries, prefix);
    var i := 0;
    while i < |entries|
      invariant i <= |entries| && Condense(checksum, Above(entries[..i], prefix)) == Ok(pushed)
      invariant forall j :: 0 <= j < i && base < entries[j].sequence <= prefix ==> HoldsLike(checksum, kept, entries[j])
    {
      var e := entries[i];
      PushNext(checksum, entries, prefix, i);
      if e.sequence <= prefix {
        if e.sequence > base {
          var same := MatchesKept(checksum, kept, e);
          if !same {
            return Err(InvalidStorageOperation);
          }
        }
      } else {
        var next := PushUnique(checksum, pushed, e);
        if next.Err? {
          AbovePrefix(entries, prefix, i + 1);
          ErrorStays(checksum, Above(entries[..i + 1], prefix), Above(entries, prefix));
          return Err(InvalidStorageOperation);
        }
        pushed := next.value;
      }
      i := i + 1;
    }
    assert entries[..i] == entries;
    r := Ok(pushed);
  }

  method CheckNumbering(entries: seq<Entry>, last: u64) returns (ok: bool)
    requires last + |entries| <= U64_MAX
    ensures ok == Numbered(entries, last)
  {
    var i := 0;
    while i < |entries|
      invariant i <= |entries| && forall j :: 0 <= j < i ==> entries[j].sequence == last + 1 + j
    {
      if entries[i].sequence != last + i + 1 {
        return false;
      }
      i := i + 1;
    }
    ok := true;
  }

  /** All checks of a replacement: accepted exactly when `Accepts` says so, with the log it leaves. */
  method PlanReplacement(checksum: Checksum, cache: seq<Entry>, base: u64, prefix: u64, entries: seq<Entry>)
    returns (r: Result<seq<Entry>, EngineError>)
    requires Contiguous(cache) && prefix + |entries| <= U64_MAX
    ensures r.Ok? <==> Accepts(checksum, cache, base, prefix, entries)
    ensures r.Ok? ==> Condense(checksum, Above(entries, prefix)).Ok?
    ensures r.Ok? ==> r.value == Replaced(checksum, cache, prefix, entries)
    ensures r.Err? ==> r.error == InvalidStorageOperation
  {
    if prefix < base {
      return Err(InvalidStorageOperation);
    }
    var kept := Retain(checksum, cache, prefix);
    if kept.value != [] && kept.value[|kept.value| - 1].sequence != prefix {
      return Err(InvalidStorageOperation);
    }
    if kept.value == [] && prefix != base {
      return Err(InvalidStorageOperation);
    }
    var sent := CheckSent(checksum, kept.value, base, prefix, entries);
    CondensedExactly(checksum, Above(entries, prefix), prefix);
    if sent.Err? {
      return sent;
    }
    CondenseShrinks(checksum, Above(entries, prefix));
    var numbered := CheckNumbering(sent.value, prefix);
    r := if numbered then Ok(kept.value + sent.value) else Err(InvalidStorageOperation);
  }

  lemma {:induction false} CondenseShrinks(checksum: Checksum, entries: seq<Entry>)
    requires Condense(checksum, entries).Ok?
    ensures |Condense(checksum, entries).value| <= |entries|
  {
    if entries != [] {
      CondenseShrinks(checksum, entries[..|entries| - 1]);
    }
  }

  /** An accepted replacement leaves a cache that ends at the last sequence sent. */
  lemma {:induction false} CacheReplaced(checksum: Checksum, cache: seq<Entry>, ids: map<u64, Identity>, base: u64,
                                         last: u64, prefix: u64, entries: seq<Entry>, ids': map<u64, Identity>)
    requires CacheKept(checksum, cache, ids, base, last) && Accepts(checksum, cache, base, prefix, entries)
    requires prefix + |entries| <= U64_MAX && Condense(checksum, Above(entries, prefix)).Ok?
    requires IdentifiesExactly(checksum, Replaced(checksum, cache, prefix, entries), ids')
    ensures var log := Replaced(checksum, cache, prefix, entries);
            var end := if log == [] then base else log[|log| - 1].sequence;
            CacheKept(checksum, log, ids', base, end)
  {
    hide IdentifiesExactly, Condense;
    CondensedExactly(checksum, Above(entries, prefix), prefix);
    ReplacedShape(Kept(cache, prefix), Condense(checksum, Above(entries, prefix)).value, base, prefix);
  }

  lemma {:induction false} ReplacedShape(kept: seq<Entry>, more: seq<Entry>, base: u64, prefix: u64)
    requires Contiguous(kept) && Numbered(more, prefix) && base <= prefix
    requires if kept == [] then prefix == base else kept[|kept| - 1].sequence == prefix && kept[0].sequence <= base + 1
    ensures Contiguous(kept + more)
    ensures var log := kept + more;
            && (log == [] ==> prefix == base)
            && (log != [] ==> log[|log| - 1].sequence == prefix + |more| && log[0].sequence <= base + 1)
  {
    ContiguousAppend(kept, more);
  }
}
