/** The engine's in-memory copy of the retained log: a contiguous run of entries and the identity of each. */
module LogCache {
  import opened Base
  import opened Keyspace

  /** An entry's checksum over its encoding; any function of the entry will do. */
  type Checksum = Entry -> nat

  datatype Identity = Identity(term: u64, checksum: nat)

  predicate Contiguous(entries: seq<Entry>) {
    forall i :: 0 <= i < |entries| ==> entries[i].sequence == entries[0].sequence + i
  }

  function IdentityOf(checksum: Checksum, e: Entry): Identity {
    Identity(e.term, checksum(e))
  }

  predicate HasSequence(entries: seq<Entry>, s: u64) {
    exists i :: 0 <= i < |entries| && entries[i].sequence == s
  }

  /** Exactly the cached sequences, each with its own entry's identity. */
  ghost predicate IdentifiesExactly(checksum: Checksum, entries: seq<Entry>, ids: map<u64, Identity>) {
    && (forall i :: 0 <= i < |entries| ==>
          entries[i].sequence in ids && ids[entries[i].sequence] == IdentityOf(checksum, entries[i]))
    && (forall s :: s in ids ==> HasSequence(entries, s))
  }

  lemma {:induction false} ContiguousAppend(a: seq<Entry>, b: seq<Entry>)
    requires Contiguous(a) && Contiguous(b)
    requires a != [] && b != [] ==> b[0].sequence == a[|a| - 1].sequence + 1
    ensures Contiguous(a + b)
  {
  }

  lemma {:induction false} SequencesApart(a: seq<Entry>, b: seq<Entry>, i: nat)
    requires Contiguous(a + b) && i < |a|
    ensures !HasSequence(b, a[i].sequence)
  {
    forall j | 0 <= j < |b| ensures b[j].sequence != a[i].sequence {
      assert (a + b)[i] == a[i] && (a + b)[|a| + j] == b[j];
    }
  }

  lemma {:induction false} IdentifiesAppend(checksum: Checksum, a: seq<Entry>, ia: map<u64, Identity>, b: seq<Entry>,
                                            ib: map<u64, Identity>)
    requires IdentifiesExactly(checksum, a, ia) && IdentifiesExactly(checksum, b, ib) && Contiguous(a + b)
    ensures IdentifiesExactly(checksum, a + b, ia + ib)
  {
    var c, ic := a + b, ia + ib;
    forall i | 0 <= i < |c| ensures c[i].sequence in ic && ic[c[i].sequence] == IdentityOf(checksum, c[i]) {
      if i < |a| {
        assert c[i] == a[i];
        SequencesApart(a, b, i);
      } else {
        assert c[i] == b[i - |a|];
      }
    }
    forall s | s in ic ensures HasSequence(c, s) {
      if s in ib {
        assert HasSequence(b, s);
        var j :| 0 <= j < |b| && b[j].sequence == s;
        assert c[|a| + j].sequence == s;
      } else {
        assert HasSequence(a, s);
        var j :| 0 <= j < |a| && a[j].sequence == s;
        assert c[j].sequence == s;
      }
    }
  }

  /**
    The log cache of an engine with snapshot baseline `base` and last applied sequence `last`: contiguous, ending
    at `last`, leaving no gap after the baseline, and identified exactly.
   */
  ghost predicate CacheKept(checksum: Checksum, entries: seq<Entry>, ids: map<u64, Identity>, base: u64, last: u64) {
    && Contiguous(entries) && IdentifiesExactly(checksum, entries, ids) && base <= last
    && (entries == [] ==> last == base)
    && (entries != [] ==> entries[|entries| - 1].sequence == last && entries[0].sequence <= base + 1)
  }

  /** New entries numbered from `last + 1` extend the cache. */
  lemma {:induction false} CacheExtends(checksum: Checksum, entries: seq<Entry>, ids: map<u64, Identity>, base: u64,
                                        last: u64, more: seq<Entry>, moreIds: map<u64, Identity>)
    requires CacheKept(checksum, entries, ids, base, last) && more != []
    requires last + |more| <= U64_MAX && forall i :: 0 <= i < |more| ==> more[i].sequence == last + 1 + i
    requires IdentifiesExactly(checksum, more, moreIds)
    ensures CacheKept(checksum, entries + more, ids + moreIds, base, last + |more|)
  {
    ContiguousAppend(entries, more);
    IdentifiesAppend(checksum, entries, ids, more, moreIds);
  }

  lemma {:induction false} CacheExtendsOne(checksum: Checksum, entries: seq<Entry>, ids: map<u64, Identity>,
                                           base: u64, last: u64, e: Entry)
    requires CacheKept(checksum, entries, ids, base, last) && e.sequence == last + 1
    ensures CacheKept(checksum, entries + [e], ids[e.sequence := IdentityOf(checksum, e)], base, last + 1)
  {
    var one := map[e.sequence := IdentityOf(checksum, e)];
    assert [e][0].sequence == e.sequence;
    CacheExtends(checksum, entries, ids, base, last, [e], one);
    assert ids + one == ids[e.sequence := IdentityOf(checksum, e)];
  }

  lemma {:induction false} CacheShape(checksum: Checksum, entries: seq<Entry>, ids: map<u64, Identity>, base: u64,
                                      last: u64)
    requires CacheKept(checksum, entries, ids, base, last)
    ensures Contiguous(entries) && base <= last
    ensures entries != [] ==> entries[|entries| - 1].sequence == last && entries[0].sequence <= base + 1
  {
  }

  /** Dropping entries from the front when the baseline moves up to the last applied sequence. */
  lemma {:induction false} CacheDrops(checksum: Checksum, entries: seq<Entry>, ids: map<u64, Identity>, base: u64,
                                      last: u64, drop: nat, ids': map<u64, Identity>)
    requires CacheKept(checksum, entries, ids, base, last) && drop <= |entries|
    requires IdentifiesExactly(checksum, entries[drop..], ids')
    ensures CacheKept(checksum, entries[drop..], ids', last, last)
  {
    hide IdentifiesExactly;
    var tail := entries[drop..];
    assert tail != [] ==> tail[0] == entries[drop] && tail[|tail| - 1] == entries[|entries| - 1];
  }

  /** Two entries share a sequence but not an identity. */
  predicate Conflicting(checksum: Checksum, entries: seq<Entry>) {
    exists i, j :: 0 <= i < j < |entries| && entries[i].sequence == entries[j].sequence
      && IdentityOf(checksum, entries[i]) != IdentityOf(checksum, entries[j])
  }

  /** `build_wal_entry_identities`: fails exactly on two entries with one sequence and different identities. */
  method BuildIdentities(checksum: Checksum, entries: seq<Entry>) returns (r: Result<map<u64, Identity>, EngineError>)
    ensures r.Ok? ==> IdentifiesExactly(checksum, entries, r.value)
    ensures r.Err? <==> Conflicting(checksum, entries)
  {
    var ids: map<u64, Identity> := map[];
    var n := 0;
    while n < |entries|
      invariant n <= |entries| && IdentifiesExactly(checksum, entries[..n], ids)
    {
      var e := entries[n];
      var id := IdentityOf(checksum, e);
      if e.sequence in ids && ids[e.sequence] != id {
        assert HasSequence(entries[..n], e.sequence);
        var i :| 0 <= i < n && entries[..n][i].sequence == e.sequence;
        assert entries[i].sequence == entries[n].sequence;
        return Err(InvalidStorageOperation);
      }
      ids := ids[e.sequence := id];
      assert entries[..n + 1] == entries[..n] + [e];
      forall s | s in ids ensures HasSequence(entries[..n + 1], s) {
        if s == e.sequence {
          assert entries[..n + 1][n].sequence == s;
        } else {
          assert HasSequence(entries[..n], s);
          var i :| 0 <= i < n && entries[..n][i].sequence == s;
          assert entries[..n + 1][i].sequence == s;
        }
      }
      n := n + 1;
    }
    assert entries[..n] == entries;
    r := Ok(ids);
    assert forall i :: 0 <= i < |entries| ==> ids[entries[i].sequence] == IdentityOf(checksum, entries[i]);
  }

  /** `push_unique_wal_entry`. */
  function PushUnique(checksum: Checksum, entries: seq<Entry>, e: Entry): Result<seq<Entry>, EngineError> {
    if entries == [] then Ok([e])
    else
      var last := entries[|entries| - 1];
      if e.sequence < last.sequence then Err(InvalidStorageOperation)
      else if e.sequence == last.sequence then
        if IdentityOf(checksum, e) != IdentityOf(checksum, last) then Err(InvalidStorageOperation) else Ok(entries)
      else Ok(entries + [e])
  }

  /** How many entries of a contiguous cache have a sequence of at most `s`. */
  function UpTo(entries: seq<Entry>, s: u64): (n: nat)
    ensures n <= |entries|
  {
    if entries == [] || s < entries[0].sequence then 0
    else if s - entries[0].sequence + 1 <= |entries| then s - entries[0].sequence + 1
    else |entries|
  }

  lemma {:induction false} UpToSplits(entries: seq<Entry>, s: u64, i: nat)
    requires Contiguous(entries) && i < |entries|
    ensures entries[i].sequence <= s <==> i < UpTo(entries, s)
  {
  }

  /** The entries a peer asks for: above `after`, at most `max`, and no more than `limit` of them unless it is zero. */
  function Slice(entries: seq<Entry>, after: u64, limit: nat, max: Option<u64>): seq<Entry> {
    var lo := UpTo(entries, after);
    var hi := if max.Some? then UpTo(entries, max.value) else |entries|;
    var asked := if lo <= hi then entries[lo..hi] else [];
    if 0 < limit < |asked| then asked[..limit] else asked
  }

  /** In a contiguous cache: the first `limit` of the entries asked for, or all of them when the limit is zero. */
  lemma {:induction false} SliceExactly(entries: seq<Entry>, after: u64, limit: nat, max: Option<u64>)
    returns (lo: nat, hi: nat)
    requires Contiguous(entries)
    ensures lo <= hi <= |entries|
    ensures forall i :: 0 <= i < |entries| ==>
              (lo <= i < hi <==> after < entries[i].sequence && (max.Some? ==> entries[i].sequence <= max.value))
    ensures Slice(entries, after, limit, max) == entries[lo..if 0 < limit < hi - lo then lo + limit else hi]
  {
    lo := UpTo(entries, after);
    hi := if max.Some? then UpTo(entries, max.value) else |entries|;
    if hi < lo {
      hi := lo;
    }
  }

  /** What the scan has collected of `cache[lo..hi]` after `i` entries. */
  function Scanned(cache: seq<Entry>, lo: nat, hi: nat, i: nat): seq<Entry>
    requires i <= |cache| && hi <= |cache|
  {
    var top := if i < hi then i else hi;
    if lo <= top then cache[lo..top] else []
  }

  lemma {:induction false} ScannedNext(checksum: Checksum, cache: seq<Entry>, lo: nat, hi: nat, i: nat)
    requires Contiguous(cache) && i < |cache| && hi <= |cache|
    ensures if lo <= i < hi then
              PushUnique(checksum, Scanned(cache, lo, hi, i), cache[i]) == Ok(Scanned(cache, lo, hi, i + 1))
            else Scanned(cache, lo, hi, i + 1) == Scanned(cache, lo, hi, i)
  {
    if lo <= i < hi {
      assert cache[lo..i + 1] == cache[lo..i] + [cache[i]];
      if lo < i {
        assert cache[lo..i][i - 1 - lo] == cache[i - 1];
        assert cache[i - 1].sequence == cache[0].sequence + (i - 1) && cache[i].sequence == cache[0].sequence + i;
      } else {
        assert cache[lo..i] == [] && [] + [cache[i]] == [cache[i]];
      }
    }
  }

  /**
    `wal_entries_since_capped`.  On a contiguous cache the scan never meets its conflict error and returns exactly
    the slice asked for.
   */
  method CappedEntries(checksum: Checksum, cache: seq<Entry>, after: u64, limit: nat, max: Option<u64>)
    returns (r: Result<seq<Entry>, EngineError>)
    ensures Contiguous(cache) ==> r == Ok(Slice(cache, after, limit, max))
  {
    hide PushUnique;
    var entries: seq<Entry> := [];
    ghost var lo := UpTo(cache, after);
    ghost var hi := if max.Some? then UpTo(cache, max.value) else |cache|;
    var i := 0;
    while i < |cache|
      invariant i <= |cache| && (Contiguous(cache) ==> entries == Scanned(cache, lo, hi, i))
    {
      if Contiguous(cache) {
        ScannedNext(checksum, cache, lo, hi, i);
        UpToSplits(cache, after, i);
        if max.Some? {
          UpToSplits(cache, max.value, i);
        }
      }
      if cache[i].sequence > after && (max.None? || cache[i].sequence <= max.value) {
        var pushed := PushUnique(checksum, entries, cache[i]);
        if pushed.Err? {
          return Err(pushed.error);
        }
        entries := pushed.value;
      }
      i := i + 1;
    }
    if limit > 0 && |entries| > limit {
      entries := entries[..limit];
    }
    r := Ok(entries);
  }
}
