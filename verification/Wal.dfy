/**
  The segmented write-ahead log: a directory of sealed segments named by their first and last sequence and one
  active segment named by its first, listed in any order, sorted by name, read back and checked.
 */
module Wal {
  import opened Base
  import opened Keyspace
  import opened LogCache
  import opened Suffix

  datatype Name = Active(start: u64) | Sealed(start: u64, end: u64)

  datatype Segment = Segment(name: Name, entries: seq<Entry>)

  /** Everything the segments hold, in order. */
  function Log(layout: seq<Segment>): seq<Entry> {
    if layout == [] then [] else Log(layout[..|layout| - 1]) + layout[|layout| - 1].entries
  }

  function ActiveCount(layout: seq<Segment>): nat {
    if layout == [] then 0
    else ActiveCount(layout[..|layout| - 1]) + if layout[|layout| - 1].name.Active? then 1 else 0
  }

  /** The segment's name tells the truth about its first entry and, once sealed, its last. */
  predicate Named(s: Segment) {
    if s.entries == [] then s.name.Active?
    else
      && s.entries[0].sequence == s.name.start
      && (s.name.Sealed? ==> s.entries[|s.entries| - 1].sequence == s.name.end)
  }

  /** What replay accepts. */
  ghost predicate Readable(layout: seq<Segment>) {
    ActiveCount(layout) <= 1 && (forall i :: 0 <= i < |layout| ==> Named(layout[i])) && Contiguous(Log(layout))
  }

  /** What that is, on the names and sequences: each segment holds what its name says, and no sequence is missing. */
  lemma {:induction false} ReadableExactly(layout: seq<Segment>)
    ensures Readable(layout) <==>
            && |ActiveSegments(layout)| <= 1
            && (forall i :: 0 <= i < |layout| ==> HoldsItsName(layout[i]))
            && Stepwise(Log(layout))
  {
    hide Log, Contiguous, Stepwise, Named, HoldsItsName, ActiveSegments, ActiveCount;
    ActiveSet(layout);
    OneByOneExactly(Log(layout));
    forall i | 0 <= i < |layout| ensures Named(layout[i]) <==> HoldsItsName(layout[i]) {
      NamedExactly(layout[i]);
    }
  }

  lemma {:induction false} NamedExactly(s: Segment)
    ensures Named(s) <==> HoldsItsName(s)
  {
  }

  /** Every entry has the sequence after the one before it. */
  predicate Stepwise(entries: seq<Entry>) {
    forall k :: 0 < k < |entries| ==> entries[k].sequence == entries[k - 1].sequence + 1
  }

  ghost function ActiveSegments(layout: seq<Segment>): set<int> {
    set i | 0 <= i < |layout| && layout[i].name.Active?
  }

  /** Only an active segment is empty; any other starts, and a sealed one ends, at the sequence in its name. */
  predicate HoldsItsName(s: Segment) {
    var n := |s.entries|;
    match s.name
    case Active(start) => n > 0 ==> s.entries[0].sequence == start
    case Sealed(start, end) => n > 0 && s.entries[0].sequence == start && s.entries[n - 1].sequence == end
  }

  lemma {:induction false} OneByOneExactly(entries: seq<Entry>)
    ensures Contiguous(entries) <==> Stepwise(entries)
    decreases |entries|
  {
    if |entries| > 1 {
      var n := |entries| - 1;
      OneByOneExactly(entries[..n]);
      assert forall k :: 0 <= k < n ==> entries[..n][k] == entries[k];
      assert Contiguous(entries) <==> Contiguous(entries[..n]) && entries[n].sequence == entries[n - 1].sequence + 1;
    }
  }

  lemma {:induction false} ActiveSet(layout: seq<Segment>)
    ensures ActiveCount(layout) == |ActiveSegments(layout)|
  {
    if layout == [] {
      assert ActiveSegments(layout) == {};
    } else {
      var n := |layout| - 1;
      ActiveSet(layout[..n]);
      assert ActiveSegments(layout) == ActiveSegments(layout[..n]) + if layout[n].name.Active? then {n} else {};
    }
  }

  // ---------------------------------------------------------------- replay

  method CountActive(layout: seq<Segment>) returns (n: nat)
    ensures n == ActiveCount(layout)
  {
    n := 0;
    var i := 0;
    while i < |layout|
      invariant i <= |layout| && n == ActiveCount(layout[..i])
    {
      assert layout[..i + 1][..i] == layout[..i];
      if layout[i].name.Active? {
        n := n + 1;
      }
      i := i + 1;
    }
    assert layout[..i] == layout;
  }

  lemma {:induction false} ContiguousPrefix(log: seq<Entry>, more: seq<Entry>)
    requires Contiguous(log + more)
    ensures Contiguous(log)
  {
    forall i | 0 <= i < |log| ensures log[i].sequence == log[0].sequence + i {
      assert (log + more)[i] == log[i] && (log + more)[0] == log[0];
    }
  }

  lemma {:induction false} LogPrefix(layout: seq<Segment>, i: nat)
    requires i <= |layout|
    ensures Log(layout[..i]) <= Log(layout)
    decreases |layout|
  {
    if i == |layout| {
      assert layout[..i] == layout;
    } else {
      assert layout[..|layout| - 1][..i] == layout[..i];
      LogPrefix(layout[..|layout| - 1], i);
    }
  }

  lemma {:induction false} LogNext(layout: seq<Segment>, i: nat)
    requires i < |layout|
    ensures Log(layout[..i + 1]) == Log(layout[..i]) + layout[i].entries
  {
    assert layout[..i + 1][..i] == layout[..i];
  }

  /** Appends a segment's entries one by one, each with the sequence after the one before it. */
  method Extend(log: seq<Entry>, entries: seq<Entry>) returns (r: Result<seq<Entry>, EngineError>)
    requires Contiguous(log)
    ensures r.Ok? <==> Contiguous(log + entries)
    ensures r.Ok? ==> r.value == log + entries
  {
    var all := log;
    var i := 0;
    while i < |entries|
      invariant i <= |entries| && all == log + entries[..i] && Contiguous(all)
    {
      if all != [] && entries[i].sequence != all[|all| - 1].sequence + 1 {
        assert log + entries == all + entries[i..];
        assert (log + entries)[|all|] == entries[i] && (log + entries)[|all| - 1] == all[|all| - 1];
        assert (log + entries)[0] == all[0];
        return Err(InvalidStorageOperation);
      }
      all := all + [entries[i]];
      i := i + 1;
    }
    assert entries[..i] == entries;
    r := Ok(all);
  }

  /** `replay_segments` succeeds exactly on a readable layout, and then returns everything in it. */
  method ReplaySegments(layout: seq<Segment>) returns (r: Result<seq<Entry>, EngineError>)
    ensures r.Ok? <==> Readable(layout)
    ensures r.Ok? ==> r.value == Log(layout)
  {
    var active := CountActive(layout);
    if active > 1 {
      return Err(InvalidStorageOperation);
    }
    var log: seq<Entry> := [];
    var i := 0;
    while i < |layout|
      invariant i <= |layout| && log == Log(layout[..i]) && Contiguous(log)
      invariant forall j :: 0 <= j < i ==> Named(layout[j])
    {
      LogNext(layout, i);
      LogPrefix(layout, i + 1);
      if !Named(layout[i]) {
        return Err(InvalidStorageOperation);
      }
      var extended := Extend(log, layout[i].entries);
      if extended.Err? {
        ghost var longer := Log(layout[..i + 1]);
        assert Log(layout) == longer + Log(layout)[|longer|..];
        if Contiguous(Log(layout)) {
          ContiguousPrefix(longer, Log(layout)[|longer|..]);
        }
        return Err(InvalidStorageOperation);
      }
      log := extended.value;
      i := i + 1;
    }
    assert layout[..i] == layout;
    r := Ok(log);
  }

  // ---------------------------------------------------------------- listing

  /** The order of segment names: by first sequence, sealed before active. */
  predicate NotAfter(a: Name, b: Name) {
    a.start < b.start || (a.start == b.start && (a.Sealed? || b.Active?))
  }

  ghost predicate Sorted(names: seq<Name>) {
    forall i, j :: 0 <= i < j < |names| ==> NotAfter(names[i], names[j])
  }

  lemma {:induction false} SortedMeans(names: seq<Name>)
    ensures Sorted(names) <==>
            forall i, j :: 0 <= i < j < |names| ==>
              || names[i].start < names[j].start
              || (names[i].start == names[j].start && (names[i].Sealed? || names[j].Active?))
  {
  }

  function InsertName(names: seq<Name>, n: Name): (r: seq<Name>)
    ensures multiset(r) == multiset(names) + multiset{n}
  {
    if names == [] then [n]
    else
      var last := names[|names| - 1];
      assert names == names[..|names| - 1] + [last];
      if NotAfter(last, n) then names + [n]
      else InsertName(names[..|names| - 1], n) + [last]
  }

  lemma {:induction false} InsertKeepsSorted(names: seq<Name>, n: Name)
    requires Sorted(names)
    ensures Sorted(InsertName(names, n))
  {
    if names != [] && !NotAfter(names[|names| - 1], n) {
      var init := names[..|names| - 1];
      InsertKeepsSorted(init, n);
      var r := InsertName(init, n);
      forall i | 0 <= i < |r| ensures NotAfter(r[i], names[|names| - 1]) {
        assert r[i] in multiset(r);
        assert r[i] in init || r[i] == n;
      }
    }
  }

  method SortNames(listing: seq<Name>) returns (names: seq<Name>)
    ensures Sorted(names) && multiset(names) == multiset(listing)
  {
    names := [];
    var i := 0;
    while i < |listing|
      invariant i <= |listing| && Sorted(names) && multiset(names) == multiset(listing[..i])
    {
      InsertKeepsSorted(names, listing[i]);
      assert listing[..i + 1] == listing[..i] + [listing[i]];
      names := InsertName(names, listing[i]);
      i := i + 1;
    }
    assert listing[..i] == listing;
  }

  ghost predicate Rising(names: seq<Name>) {
    forall i, j :: 0 <= i < j < |names| ==> names[i].start < names[j].start
  }

  /** Names with distinct first sequences have one sorted order. */
  lemma {:induction false} SortedIsUnique(a: seq<Name>, b: seq<Name>)
    requires Sorted(a) && Rising(b) && multiset(a) == multiset(b)
    ensures a == b
    decreases |a|
  {
    assert |a| == |multiset(a)| && |b| == |multiset(b)|;
    if a != [] {
      FirstsAgree(a, b);
      RestOf(a);
      RestOf(b);
      assert Sorted(a[1..]) && Rising(b[1..]);
      SortedIsUnique(a[1..], b[1..]);
    }
  }

  lemma {:induction false} RestOf(names: seq<Name>)
    requires names != []
    ensures multiset(names[1..]) == multiset(names) - multiset{names[0]} && names == [names[0]] + names[1..]
  {
    assert names == [names[0]] + names[1..];
  }

  lemma {:induction false} FirstsAgree(a: seq<Name>, b: seq<Name>)
    requires Sorted(a) && Rising(b) && multiset(a) == multiset(b) && a != [] && b != []
    ensures a[0] == b[0]
  {
    assert a[0] in multiset(b) && b[0] in multiset(a);
    var i :| 0 <= i < |a| && a[i] == b[0];
    var j :| 0 <= j < |b| && b[j] == a[0];
    assert i == 0 || NotAfter(a[0], a[i]);
    if j > 0 {
      assert b[0].start < b[j].start;
    }
  }

  // ---------------------------------------------------------------- the layout a writer keeps

  /** The segment's entries are numbered from its name; a sealed segment is not empty and ends where it says. */
  ghost predicate Filled(s: Segment) {
    && (forall i :: 0 <= i < |s.entries| ==> s.entries[i].sequence == s.name.start + i)
    && (s.name.Sealed? ==> s.entries != [] && s.name.end == s.name.start + |s.entries| - 1)
  }

  function Next(s: Segment): nat {
    s.name.start + |s.entries|
  }

  /** Segments that follow one another without a gap, all sealed but possibly the last. */
  ghost predicate Chained(layout: seq<Segment>) {
    && (forall i :: 0 <= i < |layout| ==> Filled(layout[i]))
    && (forall i :: 0 <= i < |layout| - 1 ==> Linked(layout, i))
  }

  ghost predicate Linked(layout: seq<Segment>, i: nat)
    requires i + 1 < |layout|
  {
    layout[i].name.Sealed? && layout[i + 1].name.start == Next(layout[i])
  }

  lemma {:induction false} ChainedInit(layout: seq<Segment>)
    requires Chained(layout) && layout != []
    ensures Chained(layout[..|layout| - 1])
    ensures Filled(layout[|layout| - 1])
    ensures |layout| > 1 ==> Linked(layout, |layout| - 2)
  {
    var init := layout[..|layout| - 1];
    forall i | 0 <= i < |init| - 1 ensures Linked(init, i) {
      assert Linked(layout, i);
    }
    forall i | 0 <= i < |init| ensures Filled(init[i]) {
      assert Filled(layout[i]);
    }
  }

  /** Another segment at the end of a chain. */
  lemma {:induction false} ChainedLast(init: seq<Segment>, s: Segment)
    requires Chained(init) && Filled(s)
    requires init != [] ==> init[|init| - 1].name.Sealed? && s.name.start == Next(init[|init| - 1])
    ensures Chained(init + [s]) && Log(init + [s]) == Log(init) + s.entries
  {
    var layout := init + [s];
    assert layout[..|layout| - 1] == init;
    forall i | 0 <= i < |layout| - 1 ensures Linked(layout, i) {
      assert i < |init| - 1 ==> Linked(init, i);
    }
    forall i | 0 <= i < |layout| ensures Filled(layout[i]) {
      assert i < |init| ==> Filled(init[i]);
    }
  }

  lemma {:induction false} ChainedDrop(layout: seq<Segment>, k: nat)
    requires Chained(layout) && k <= |layout|
    ensures Chained(layout[k..])
  {
    var rest := layout[k..];
    forall i | 0 <= i < |rest| - 1 ensures Linked(rest, i) {
      assert Linked(layout, k + i);
    }
    forall i | 0 <= i < |rest| ensures Filled(rest[i]) {
      assert Filled(layout[k + i]);
    }
  }

  function Names(layout: seq<Segment>): (r: seq<Name>)
    ensures |r| == |layout| && forall i :: 0 <= i < |r| ==> r[i] == layout[i].name
  {
    seq(|layout|, i requires 0 <= i < |layout| => layout[i].name)
  }

  lemma {:induction false} ChainedLog(layout: seq<Segment>)
    requires Chained(layout) && layout != []
    ensures |Log(layout)| == Next(layout[|layout| - 1]) - layout[0].name.start
    ensures forall k :: 0 <= k < |Log(layout)| ==> Log(layout)[k].sequence == layout[0].name.start + k
    decreases |layout|
  {
    var init := layout[..|layout| - 1];
    if init == [] {
      assert Filled(layout[0]);
      assert Log(init) == [] && Log(layout) == [] + layout[0].entries == layout[0].entries;
    } else {
      ChainedInit(layout);
      ChainedLog(init);
    }
  }

  lemma {:induction false} ChainedRises(layout: seq<Segment>)
    requires Chained(layout)
    ensures Rising(Names(layout))
    ensures ActiveCount(layout) <= 1
    ensures layout != [] ==> ActiveCount(layout[..|layout| - 1]) == 0
    decreases |layout|
  {
    if |layout| > 1 {
      var n := |layout| - 1;
      var init := layout[..n];
      ChainedInit(layout);
      ChainedRises(init);
      forall i | 0 <= i < n ensures Names(layout)[i].start < Names(layout)[n].start {
        assert Names(init)[i] == Names(layout)[i] && Names(init)[n - 1] == Names(layout)[n - 1];
      }
      forall i, j | 0 <= i < j < |layout| ensures Names(layout)[i].start < Names(layout)[j].start {
        if j < n {
          assert Names(init)[i] == Names(layout)[i] && Names(init)[j] == Names(layout)[j];
        }
      }
    }
  }

  /** A chained layout is readable. */
  lemma {:induction false} ChainedReadable(layout: seq<Segment>)
    requires Chained(layout)
    ensures Readable(layout)
  {
    ChainedRises(layout);
    if layout != [] {
      ChainedLog(layout);
    }
    assert forall i :: 0 <= i < |layout| ==> Filled(layout[i]);
  }

  // ---------------------------------------------------------------- directories

  type Directory = map<Name, seq<Entry>>

  ghost predicate Holds(dir: Directory, layout: seq<Segment>) {
    && (forall i :: 0 <= i < |layout| ==> layout[i].name in dir && dir[layout[i].name] == layout[i].entries)
    && (forall n :: n in dir ==> n in Names(layout))
  }

  /** A directory listing: every file once, in any order. */
  ghost predicate Lists(listing: seq<Name>, dir: Directory) {
    multiset(listing) == multiset(dir.Keys)
  }

  lemma {:induction false} OncePerName(names: seq<Name>, n: Name)
    requires Rising(names)
    ensures multiset(names)[n] == if n in names then 1 else 0
  {
    if names != [] {
      var init, last := names[..|names| - 1], names[|names| - 1];
      assert names == init + [last];
      OncePerName(init, n);
      assert last !in init;
    }
  }

  /** Whatever order the directory is listed in, sorting gives the layout's own order. */
  lemma {:induction false} SortedListing(dir: Directory, layout: seq<Segment>, listing: seq<Name>, names: seq<Name>)
    requires Holds(dir, layout) && Chained(layout) && Lists(listing, dir)
    requires Sorted(names) && multiset(names) == multiset(listing)
    ensures names == Names(layout)
  {
    ChainedRises(layout);
    var ours := Names(layout);
    forall n ensures multiset(ours)[n] == multiset(dir.Keys)[n] {
      OncePerName(ours, n);
      assert n in ours ==> n in dir;
    }
    assert multiset(ours) == multiset(dir.Keys);
    SortedIsUnique(names, ours);
  }

  /** `read_dir`: some listing; nothing is known of its order. */
  method ListFiles(dir: Directory) returns (listing: seq<Name>)
    ensures Lists(listing, dir)
  {
    listing := [];
    var todo := dir.Keys;
    while todo != {}
      invariant todo <= dir.Keys && multiset(listing) + multiset(todo) == multiset(dir.Keys)
      decreases todo
    {
      var n :| n in todo;
      listing := listing + [n];
      todo := todo - {n};
    }
  }

  method ReadAll(dir: Directory, names: seq<Name>) returns (layout: seq<Segment>)
    requires forall i :: 0 <= i < |names| ==> names[i] in dir
    ensures Names(layout) == names && forall i :: 0 <= i < |layout| ==> layout[i].entries == dir[names[i]]
  {
    layout := [];
    var i := 0;
    while i < |names|
      invariant i <= |names| && |layout| == i
      invariant forall j :: 0 <= j < i ==> layout[j] == Segment(names[j], dir[names[j]])
    {
      layout := layout + [Segment(names[i], dir[names[i]])];
      i := i + 1;
    }
  }

  /** Replay of a directory that holds a chained layout never fails, and returns everything in the layout. */
  method Replay(dir: Directory, listing: seq<Name>, ghost layout: seq<Segment>)
    returns (r: Result<seq<Entry>, EngineError>)
    requires Lists(listing, dir) && Holds(dir, layout) && Chained(layout)
    ensures r == Ok(Log(layout))
  {
    var names := SortNames(listing);
    SortedListing(dir, layout, listing, names);
    var read := ReadAll(dir, names);
    assert read == layout;
    ChainedReadable(layout);
    r := ReplaySegments(read);
  }

  method FirstActive(names: seq<Name>) returns (found: Option<Name>)
    ensures found.Some? ==> found.value in names && found.value.Active?
    ensures found.None? ==> forall n :: n in names ==> n.Sealed?
  {
    var i := 0;
    while i < |names|
      invariant i <= |names| && forall j :: 0 <= j < i ==> names[j].Sealed?
    {
      if names[i].Active? {
        return Some(names[i]);
      }
      i := i + 1;
    }
    found := None;
  }

  /** `active_segment_file`: in a chained layout, the last segment or none. */
  method FindActive(dir: Directory, listing: seq<Name>, ghost layout: seq<Segment>) returns (found: Option<Name>)
    requires Lists(listing, dir) && Holds(dir, layout) && Chained(layout)
    ensures found == if layout != [] && layout[|layout| - 1].name.Active? then Some(layout[|layout| - 1].name) else None
  {
    var names := SortNames(listing);
    SortedListing(dir, layout, listing, names);
    found := FirstActive(names);
    forall i | 0 <= i < |layout| - 1 ensures names[i].Sealed? {
      assert Linked(layout, i);
    }
    assert layout != [] ==> names[|layout| - 1] in names;
  }
}
