/** The stateful appender over a segment directory: appends, rotation by size, sealing for snapshots, pruning. */
module WalWriting {
  import opened Base
  import opened Keyspace
  import opened LogCache
  import opened Wal

  function Last(layout: seq<Segment>): Segment
    requires layout != []
  {
    layout[|layout| - 1]
  }

  function Init(layout: seq<Segment>): seq<Segment>
    requires layout != []
  {
    layout[..|layout| - 1]
  }

  /** Names in a chain are distinct: the first sequences rise. */
  lemma {:induction false} Distinct(layout: seq<Segment>, i: nat, j: nat)
    requires Chained(layout) && i < j < |layout|
    ensures layout[i].name.start < layout[j].name.start
  {
    ChainedRises(layout);
    assert Names(layout)[i].start < Names(layout)[j].start;
  }

  lemma {:induction false} PositionOf(dir: Directory, layout: seq<Segment>, n: Name) returns (i: nat)
    requires Holds(dir, layout) && n in dir
    ensures i < |layout| && layout[i].name == n
  {
    i :| 0 <= i < |layout| && Names(layout)[i] == n;
  }

  lemma {:induction false} HoldsName(layout: seq<Segment>, i: nat)
    requires i < |layout|
    ensures layout[i].name in Names(layout)
  {
    assert Names(layout)[i] == layout[i].name;
  }

  /** The last segment removed. */
  lemma {:induction false} RemoveLast(dir: Directory, layout: seq<Segment>)
    requires Holds(dir, layout) && Chained(layout) && layout != []
    ensures Chained(Init(layout)) && Holds(dir - {Last(layout).name}, Init(layout))
  {
    ChainedInit(layout);
    hide Chained;
    forall n | n in dir && n != Last(layout).name ensures n in Names(Init(layout)) {
      var i := PositionOf(dir, layout, n);
      HoldsName(Init(layout), i);
    }
    forall i | 0 <= i < |layout| - 1 ensures layout[i].name != Last(layout).name {
      Distinct(layout, i, |layout| - 1);
    }
  }

  /** A segment added at the end, under a name that is not there yet. */
  lemma {:induction false} AddSegment(dir: Directory, layout: seq<Segment>, s: Segment)
    requires Holds(dir, layout) && s.name !in dir
    ensures Holds(dir[s.name := s.entries], layout + [s])
  {
    var layout' := layout + [s];
    forall n | n in dir ensures n in Names(layout') {
      var i := PositionOf(dir, layout, n);
      HoldsName(layout', i);
    }
    HoldsName(layout', |layout|);
  }

  /** The last segment replaced by one that starts at the same sequence. */
  lemma {:induction false} SwapLast(dir: Directory, layout: seq<Segment>, s: Segment)
    requires Holds(dir, layout) && Chained(layout) && layout != [] && Filled(s)
    requires s.name.start == Last(layout).name.start
    ensures Chained(Init(layout) + [s])
    ensures Holds((dir - {Last(layout).name})[s.name := s.entries], Init(layout) + [s])
    ensures Log(Init(layout) + [s]) == Log(Init(layout)) + s.entries
  {
    hide Chained, Holds, Log, Filled;
    var rest := dir - {Last(layout).name};
    RemoveLast(dir, layout);
    ChainedInit(layout);
    ChainedLast(Init(layout), s);
    if s.name in rest {
      var i := PositionOf(rest, Init(layout), s.name);
      Distinct(layout, i, |layout| - 1);
    }
    AddSegment(rest, Init(layout), s);
  }

  /** A fresh segment after the last sealed one. */
  lemma {:induction false} AddLast(dir: Directory, layout: seq<Segment>, n: Name)
    requires Holds(dir, layout) && Chained(layout) && n.Active?
    requires layout != [] ==> Last(layout).name.Sealed? && n.start == Next(Last(layout))
    ensures Chained(layout + [Segment(n, [])]) && Holds(dir[n := []], layout + [Segment(n, [])])
    ensures Log(layout + [Segment(n, [])]) == Log(layout)
  {
    hide Chained, Holds, Log;
    ChainedLast(layout, Segment(n, []));
    assert Log(layout) + [] == Log(layout);
    if n in dir {
      var i := PositionOf(dir, layout, n);
      Distinct(layout + [Segment(n, [])], i, |layout|);
    }
    AddSegment(dir, layout, Segment(n, []));
  }

  /** The first segment removed. */
  lemma {:induction false} RemoveFirst(dir: Directory, layout: seq<Segment>)
    requires Holds(dir, layout) && Chained(layout) && layout != []
    ensures Chained(layout[1..]) && Holds(dir - {layout[0].name}, layout[1..])
    ensures Log(layout) == layout[0].entries + Log(layout[1..])
  {
    hide Log;
    LogHead(layout);
    var rest := layout[1..];
    forall n | n in dir && n != layout[0].name ensures n in Names(rest) {
      var i := PositionOf(dir, layout, n);
      HoldsName(rest, i - 1);
    }
    forall i | 0 <= i < |rest| ensures rest[i].name != layout[0].name {
      Distinct(layout, 0, i + 1);
    }
    ChainedDrop(layout, 1);
  }

  lemma {:induction false} LogHead(layout: seq<Segment>)
    requires layout != []
    ensures Log(layout) == layout[0].entries + Log(layout[1..])
    decreases |layout|
  {
    if |layout| == 1 {
      assert layout[..0] == [] && layout[1..] == [];
    } else {
      hide Log;
      LogHead(Init(layout));
      LogLast(layout);
      LogLast(layout[1..]);
      assert Init(layout)[1..] == Init(layout[1..]);
      ghost var a, b, c := layout[0].entries, Log(Init(layout[1..])), Last(layout).entries;
      assert a + b + c == a + (b + c);
    }
  }

  function SizeOf(frameSize: Entry -> nat, entries: seq<Entry>): nat {
    if entries == [] then 0 else SizeOf(frameSize, entries[..|entries| - 1]) + frameSize(entries[|entries| - 1])
  }

  /** Every segment sealed since the `k`-th was open has reached the size limit. */
  ghost predicate FullFrom(frameSize: Entry -> nat, limit: nat, layout: seq<Segment>, k: int) {
    forall i :: 0 <= k <= i < |layout| - 1 ==> SizeOf(frameSize, layout[i].entries) >= limit
  }

  class WalWriter {
    const frameSize: Entry -> nat
    const maxSegmentSize: nat
    var dir: Directory
    var active: Name
    var fileLen: nat
    ghost var layout: seq<Segment>
    /** Everything appended since the directory was empty, and how many of the oldest entries pruning has removed. */
    ghost var appended: seq<Entry>
    ghost var pruned: nat

    /** The files form a chained layout, and hold all that was ever appended but what was pruned. */
    ghost predicate OnDisk()
      reads this
    {
      && Holds(dir, layout) && Chained(layout)
      && pruned <= |appended| && Log(layout) == appended[pruned..]
    }

    /** They do, and the open file is the active segment at its end. */
    ghost predicate Valid()
      reads this
    {
      && OnDisk() && layout != [] && active.Active? && Last(layout).name == active
      && fileLen == SizeOf(frameSize, Last(layout).entries)
    }

    /** Where the next entry goes. */
    ghost function NextSequence(): nat
      reads this
      requires layout != []
    {
      Next(Last(layout))
    }

    /** A writer on an empty directory. */
    constructor (frameSize: Entry -> nat, maxSegmentSize: nat, start: u64)
      ensures Valid() && appended == [] && pruned == 0 && NextSequence() == start
      ensures this.frameSize == frameSize && this.maxSegmentSize == maxSegmentSize
    {
      this.frameSize, this.maxSegmentSize := frameSize, maxSegmentSize;
      active, fileLen := Active(start), 0;
      dir, layout := map[Active(start) := []], [Segment(Active(start), [])];
      appended, pruned := [], 0;
      new;
      assert [Segment(Active(start), [])][..0] == [];
      assert Names(layout)[0] == active;
    }

    /** Opens the active segment, or creates one after the sealed ones. */
    method Open(start: u64)
      requires OnDisk()
      requires layout != [] && Last(layout).name.Sealed? ==> start == Next(Last(layout))
      modifies this
      ensures Valid() && Log(layout) == old(Log(layout)) && appended == old(appended) && pruned == old(pruned)
      ensures old(layout == [] || Last(layout).name.Sealed?) ==> layout == old(layout) + [Segment(Active(start), [])]
      ensures old(layout != [] && Last(layout).name.Active?) ==> layout == old(layout)
    {
      hide Chained, Holds, Log;
      var listing := ListFiles(dir);
      var found := FindActive(dir, listing, layout);
      if found.None? {
        active := Active(start);
        AddLast(dir, layout, active);
        dir := dir[active := []];
        layout := layout + [Segment(active, [])];
      } else {
        active := found.value;
        HeldLast(dir, layout);
      }
      fileLen := SizeOf(frameSize, dir[active]);
    }

    /** One entry to the open file. */
    method Write(entry: Entry)
      requires Valid() && entry.sequence == NextSequence()
      modifies this
      ensures Valid() && appended == old(appended) + [entry] && pruned == old(pruned)
      ensures Log(layout) == old(Log(layout)) + [entry]
      ensures NextSequence() == entry.sequence + 1 && Last(layout).entries != []
      ensures |layout| == old(|layout|) && fileLen == old(fileLen) + frameSize(entry)
      ensures Init(layout) == old(Init(layout))
    {
      hide Chained, Holds, Log, Filled;
      ghost var s := Segment(active, Last(layout).entries + [entry]);
      ChainedInit(layout);
      WrittenFilled(Last(layout), entry);
      SwapLast(dir, layout, s);
      LogLast(layout);
      HeldLast(dir, layout);
      assert Log(Init(layout)) + s.entries == Log(layout) + [entry];
      assert (dir - {active})[active := s.entries] == dir[active := s.entries];
      dir := dir[active := dir[active] + [entry]];
      layout := Init(layout) + [s];
      assert s.entries[..|s.entries| - 1] == old(Last(layout).entries);
      fileLen := fileLen + frameSize(entry);
      appended := appended + [entry];
      assert appended[pruned..] == old(appended)[pruned..] + [entry];
    }

    /** Seals the open file under its range and opens the next one. */
    method RotateAfter(last: u64)
      requires Valid() && Last(layout).entries != [] && last + 1 == NextSequence() && last < U64_MAX
      modifies this
      ensures Valid() && Log(layout) == old(Log(layout)) && NextSequence() == last + 1
      ensures appended == old(appended) && pruned == old(pruned)
      ensures fileLen == 0 && |layout| == old(|layout|) + 1
      ensures Init(Init(layout)) == old(Init(layout)) && Last(Init(layout)).entries == old(Last(layout).entries)
    {
      hide Chained, Holds, Log;
      SealLast(last);
      var next := Active(last + 1);
      AddLast(dir, layout, next);
      active := next;
      dir := dir[active := []];
      layout := layout + [Segment(active, [])];
      fileLen := 0;
      assert Init(layout) == layout[..|layout| - 1];
    }

    /** The rename that seals the open file. */
    method SealLast(last: u64)
      requires OnDisk() && layout != [] && Last(layout).name == active && active.Active?
      requires Last(layout).entries != [] && last + 1 == NextSequence()
      modifies this`dir, this`layout
      ensures OnDisk() && layout != [] && Last(layout).name.Sealed? && Log(layout) == old(Log(layout))
      ensures NextSequence() == last + 1 && |layout| == old(|layout|)
      ensures Init(layout) == old(Init(layout)) && Last(layout).entries == old(Last(layout).entries)
    {
      hide Chained, Holds, Log, Filled;
      ghost var s := Segment(Sealed(active.start, last), Last(layout).entries);
      ChainedInit(layout);
      SealedFilled(Last(layout), last);
      SwapLast(dir, layout, s);
      LogLast(layout);
      HeldLast(dir, layout);
      dir := (dir - {active})[Sealed(active.start, last) := dir[active]];
      layout := Init(layout) + [s];
    }

    /** Appends a batch, rotating at entry boundaries: nothing is lost, reordered or written twice. */
    method AppendBatch(entries: seq<Entry>)
      requires Valid() && NextSequence() + |entries| <= U64_MAX
      requires forall i :: 0 <= i < |entries| ==> entries[i].sequence == NextSequence() + i
      modifies this
      ensures Valid() && appended == old(appended) + entries && pruned == old(pruned)
      ensures Log(layout) == old(Log(layout)) + entries && NextSequence() == old(NextSequence()) + |entries|
      ensures maxSegmentSize == 0 ==> |layout| == old(|layout|)
      ensures maxSegmentSize > 0 && (entries != [] || old(fileLen) < maxSegmentSize) ==> fileLen < maxSegmentSize
      ensures old(Init(layout)) <= layout && FullFrom(frameSize, maxSegmentSize, layout, old(|layout|) - 1)
    {
      hide Chained, Holds, Log, SizeOf;
      var i := 0;
      while i < |entries|
        invariant i <= |entries| && Valid() && Log(layout) == old(Log(layout)) + entries[..i]
        invariant appended == old(appended) + entries[..i] && pruned == old(pruned)
        invariant NextSequence() == old(NextSequence()) + i
        invariant maxSegmentSize == 0 ==> |layout| == old(|layout|)
        invariant i == 0 ==> fileLen == old(fileLen)
        invariant maxSegmentSize > 0 && i > 0 ==> fileLen < maxSegmentSize
        invariant old(|layout|) <= |layout| && old(Init(layout)) <= layout
        invariant FullFrom(frameSize, maxSegmentSize, layout, old(|layout|) - 1)
      {
        ghost var before := layout;
        Write(entries[i]);
        assert entries[..i + 1] == entries[..i] + [entries[i]];
        if maxSegmentSize > 0 && fileLen >= maxSegmentSize {
          RotateAfter(entries[i].sequence);
          assert forall j :: 0 <= j < |layout| - 2 ==> layout[j] == Init(Init(layout))[j];
        }
        assert forall j :: 0 <= j < |before| - 1 ==> layout[j] == Init(before)[j];
        i := i + 1;
      }
      assert entries[..i] == entries;
    }

    /** `seal_active`: an empty active segment is removed, any other is sealed. */
    method SealActive()
      requires Valid() && NextSequence() <= U64_MAX
      modifies this`dir, this`layout
      ensures OnDisk() && Log(layout) == old(Log(layout))
      ensures layout != [] ==> Last(layout).name.Sealed? && NextSequence() == old(NextSequence())
    {
      hide Chained, Holds, Log;
      var listing := ListFiles(dir);
      var found := FindActive(dir, listing, layout);
      HeldLast(dir, layout);
      LogLast(layout);
      if dir[found.value] == [] {
        RemoveLast(dir, layout);
        BeforeLast(layout);
        dir := dir - {found.value};
        layout := Init(layout);
      } else {
        var entries := dir[found.value];
        LastSequence(dir, layout);
        SealLast(entries[|entries| - 1].sequence);
      }
    }

    method RemoveOldest(name: Name)
      requires Valid() && |layout| > 1 && layout[0].name == name
      modifies this`dir, this`layout, this`pruned
      ensures Valid() && layout == old(layout)[1..] && Last(layout) == old(Last(layout))
      ensures pruned == old(pruned) + |old(layout)[0].entries|
      ensures |old(layout)[0].entries| <= |old(Log(layout))|
      ensures Log(layout) == old(Log(layout))[|old(layout)[0].entries|..]
    {
      hide Chained, Holds, Log;
      RemoveFirst(dir, layout);
      dir := dir - {name};
      pruned := pruned + |layout[0].entries|;
      layout := layout[1..];
      assert Log(layout) == old(Log(layout))[|old(layout)[0].entries|..];
    }

    /** Removes the oldest sealed segments beyond the retained number; what is left is a suffix of the log. */
    method Prune(retain: nat) returns (ghost drop: nat)
      requires Valid()
      modifies this`dir, this`layout, this`pruned
      ensures Valid() && drop <= |old(Log(layout))| && Log(layout) == old(Log(layout))[drop..]
      ensures pruned == old(pruned) + drop
      ensures |layout| == if old(|layout|) - 1 <= retain then old(|layout|) else retain + 1
      ensures Last(layout) == old(Last(layout))
    {
      hide Chained, Holds, Log, Lists, SizeOf, Next;
      var listing := ListFiles(dir);
      var names := SortNames(listing);
      SortedListing(dir, layout, listing, names);
      var sealed := |names| - 1;
      drop := 0;
      var i := 0;
      while i < sealed - retain
        invariant 0 <= i <= sealed && (i == 0 || i <= sealed - retain)
        invariant layout == old(layout)[i..] && Valid() && pruned == old(pruned) + drop
        invariant drop <= |old(Log(layout))| && Log(layout) == old(Log(layout))[drop..]
      {
        assert |layout| == |names| - i > 1 && layout[0].name == names[i];
        assert layout[1..] == old(layout)[i + 1..];
        DropMore(old(Log(layout)), drop, |layout[0].entries|);
        drop := drop + |layout[0].entries|;
        RemoveOldest(names[i]);
        i := i + 1;
      }
    }

    /** What a snapshot at `sequence` does to the log: seal, start a new segment, reopen, prune. */
    method Cut(sequence: u64, retain: nat) returns (ghost drop: nat)
      requires Valid() && sequence < U64_MAX && NextSequence() == sequence + 1
      modifies this
      ensures Valid() && NextSequence() == sequence + 1 && Last(layout).entries == []
      ensures appended == old(appended) && pruned == old(pruned) + drop
      ensures drop <= |old(Log(layout))| && Log(layout) == old(Log(layout))[drop..]
    {
      hide Chained, Holds, Log;
      SealActive();
      Open(sequence + 1);
      drop := Prune(retain);
    }
  }

  lemma {:induction false} DropMore(log: seq<Entry>, drop: nat, more: nat)
    requires drop <= |log|
    ensures more <= |log[drop..]| ==> drop + more <= |log| && log[drop..][more..] == log[drop + more..]
  {
  }

  /** The open file's entry in the directory. */
  lemma {:induction false} HeldLast(dir: Directory, layout: seq<Segment>)
    requires Holds(dir, layout) && layout != []
    ensures Last(layout).name in dir && dir[Last(layout).name] == Last(layout).entries
  {
  }

  lemma {:induction false} LogLast(layout: seq<Segment>)
    requires layout != []
    ensures Log(layout) == Log(Init(layout)) + Last(layout).entries
  {
  }

  lemma {:induction false} WrittenFilled(s: Segment, e: Entry)
    requires Filled(s) && s.name.Active? && e.sequence == Next(s)
    ensures Filled(Segment(s.name, s.entries + [e]))
  {
  }

  lemma {:induction false} SealedFilled(s: Segment, last: u64)
    requires Filled(s) && s.entries != [] && last + 1 == Next(s)
    ensures Filled(Segment(Sealed(s.name.start, last), s.entries))
  {
  }

  lemma {:induction false} LastSequence(dir: Directory, layout: seq<Segment>)
    requires Chained(layout) && layout != [] && Last(layout).entries != []
    ensures var entries := Last(layout).entries; entries[|entries| - 1].sequence + 1 == Next(Last(layout))
  {
    assert Filled(Last(layout));
  }

  /** An empty last segment starts where the one before it ends. */
  lemma {:induction false} BeforeLast(layout: seq<Segment>)
    requires Chained(layout) && layout != [] && Last(layout).entries == []
    ensures Init(layout) != [] ==>
              Last(Init(layout)).name.Sealed? && Next(Last(Init(layout))) == Next(Last(layout))
    ensures Log(Init(layout)) == Log(layout)
  {
    if |layout| > 1 {
      assert Linked(layout, |layout| - 2);
    }
    assert Log(Init(layout)) + [] == Log(Init(layout));
  }

  // ---------------------------------------------------------------- pruning above a floor

  predicate Covers(s: Segment, floor: u64) {
    s.name.Sealed? && s.name.start <= floor <= s.name.end
  }

  /** A segment ends before any later one starts; it touches the next one only. */
  lemma {:induction false} EndsBefore(layout: seq<Segment>, i: nat, j: nat)
    requires Chained(layout) && i < j < |layout|
    ensures Next(layout[i]) <= layout[j].name.start
    ensures Next(layout[i]) == layout[j].name.start <==> j == i + 1
    ensures layout[i].name.Sealed? && layout[i].name.end + 1 == Next(layout[i])
  {
    assert Linked(layout, i) && Filled(layout[i]);
    if i + 1 < j {
      Distinct(layout, i + 1, j);
    }
  }

  /**
    `prune_sealed_segments_with_floor`: the oldest segments go, except the one that covers the floor.  What is left
    is readable exactly when no such segment was skipped, it was the last candidate, or nothing follows the gap.
   */
  method PruneAboveFloor(layout: seq<Segment>, retain: nat, floor: Option<u64>)
    returns (left: seq<Segment>, k: nat, skipped: Option<nat>)
    requires Chained(layout) && layout != [] && Last(layout).name.Active?
    ensures k == (if |layout| - 1 <= retain then 0 else |layout| - 1 - retain)
    ensures left == (if skipped.Some? && skipped.value < k then [layout[skipped.value]] else []) + layout[k..]
    ensures skipped.Some? <==> floor.Some? && exists i :: 0 <= i < k && Covers(layout[i], floor.value)
    ensures skipped.Some? ==> skipped.value < k && Covers(layout[skipped.value], floor.value)
    ensures Readable(left) <==> skipped.None? || skipped.value + 1 == k || Log(layout[k..]) == []
  {
    hide Chained, Log, Readable;
    k := if |layout| - 1 <= retain then 0 else |layout| - 1 - retain;
    left, skipped := [], None;
    var i := 0;
    while i < k
      invariant 0 <= i <= k
      invariant left == if skipped.Some? && skipped.value < i then [layout[skipped.value]] else []
      invariant skipped.None? ==> floor.None? || forall j :: 0 <= j < i ==> !Covers(layout[j], floor.value)
      invariant skipped.Some? ==> floor.Some? && skipped.value < i && Covers(layout[skipped.value], floor.value)
    {
      if floor.Some? && Covers(layout[i], floor.value) {
        if skipped.Some? {
          EndsBefore(layout, skipped.value, i);
        }
        left, skipped := left + [layout[i]], Some(i);
      }
      i := i + 1;
    }
    left := left + layout[k..];
    ChainedDrop(layout, k);
    if skipped.None? {
      assert left == layout[k..];
      ChainedReadable(layout[k..]);
    } else {
      SkippedReadable(layout, skipped.value, k);
    }
  }

  lemma {:induction false} SkippedReadable(layout: seq<Segment>, j: nat, k: nat)
    requires Chained(layout) && j < k < |layout|
    ensures Readable([layout[j]] + layout[k..]) <==> j + 1 == k || Log(layout[k..]) == []
  {
    hide Readable;
    var left := [layout[j]] + layout[k..];
    ChainedDrop(layout, k);
    ChainedReadable(layout[k..]);
    EndsBefore(layout, j, k);
    LogHead(left);
    assert left[1..] == layout[k..];
    ChainedLog(layout[k..]);
    assert layout[k..][0] == layout[k] && Filled(layout[j]);
    Joined(layout[j], layout[k..]);
  }

  /** A sealed segment in front of a chain. */
  lemma {:induction false} Joined(s: Segment, rest: seq<Segment>)
    requires Filled(s) && s.name.Sealed? && Chained(rest) && rest != [] && Log([s] + rest) == s.entries + Log(rest)
    requires Readable(rest)
    requires forall k :: 0 <= k < |Log(rest)| ==> Log(rest)[k].sequence == rest[0].name.start + k
    ensures Readable([s] + rest) <==> Log(rest) == [] || rest[0].name.start == Next(s)
  {
    hide Chained, Log;
    var all := [s] + rest;
    ActiveHead(all);
    assert all[1..] == rest;
    assert forall i :: 0 <= i < |all| ==> all[i] == if i == 0 then s else rest[i - 1];
    if Contiguous(Log(all)) && Log(rest) != [] {
      assert Log(all)[0] == s.entries[0] && Log(all)[|s.entries|] == Log(rest)[0];
    }
  }

  lemma {:induction false} ActiveHead(layout: seq<Segment>)
    requires layout != []
    ensures ActiveCount(layout) == ActiveCount(layout[1..]) + if layout[0].name.Active? then 1 else 0
    decreases |layout|
  {
    if |layout| == 1 {
      assert layout[..0] == [] && layout[1..] == [];
    } else {
      ActiveHead(Init(layout));
      assert Init(layout)[1..] == Init(layout[1..]);
    }
  }

  /**
    Three sealed segments of one entry each, one to be retained, and a floor in the first: the second goes, the first
    stays, and what is left cannot be replayed.
   */
  lemma {:induction false} FloorLeavesAGap(layout: seq<Segment>, a: Entry, b: Entry, c: Entry)
    requires a.sequence == 1 && b.sequence == 2 && c.sequence == 3
    requires layout == [Segment(Sealed(1, 1), [a]), Segment(Sealed(2, 2), [b]), Segment(Sealed(3, 3), [c]),
                        Segment(Active(4), [])]
    ensures Chained(layout) && Covers(layout[0], 1) && !Readable([layout[0]] + layout[2..])
  {
    assert Linked(layout, 0) && Linked(layout, 1) && Linked(layout, 2);
    SkippedReadable(layout, 0, 2);
    LogHead(layout[2..]);
  }
}
