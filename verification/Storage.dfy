/**
  The log on disk, end to end: a directory of byte files read back through the frames, and the writer's cut at a
  snapshot together with the engine's.
 */
module Storage {
  import opened Base
  import opened Numbers
  import opened Keyspace
  import opened LogCache
  import opened Framing
  import opened Wal
  import opened WalWriting
  import opened Recovery
  import opened EngineRuns
  import E = Engine

  type Files = map<Name, Bytes>

  /** The entry codec and the checksum of frames. */
  datatype Codec = Codec(hash: Bytes -> u32, encode: Entry -> Payload, decode: Bytes -> Option<Entry>)

  ghost predicate Good(codec: Codec, entries: seq<Entry>) {
    forall e :: e in entries ==> Decodes(codec.encode, codec.decode, e) && Fits(codec.encode, e)
  }

  function BytesOf(codec: Codec, entries: seq<Entry>): Bytes {
    Written(codec.hash, codec.encode, entries)
  }

  /**
    The files are a directory's, except that the open one, at the end of its layout, has only its first `n` bytes: what
    a crash during an append leaves behind.
   */
  ghost predicate HoldsBytes(codec: Codec, files: Files, dir: Directory, layout: seq<Segment>, n: nat) {
    && Holds(dir, layout) && files.Keys == dir.Keys
    && layout != [] && Last(layout).name.Active? && n <= |BytesOf(codec, Last(layout).entries)|
    && (forall i :: 0 <= i < |layout| - 1 ==> files[layout[i].name] == BytesOf(codec, layout[i].entries))
    && files[Last(layout).name] == BytesOf(codec, Last(layout).entries)[..n]
    && (forall i :: 0 <= i < |layout| ==> Good(codec, layout[i].entries))
  }

  /** The layout with its open file cut to its first `k` entries. */
  function CutShort(layout: seq<Segment>, k: nat): seq<Segment>
    requires layout != [] && k <= |Last(layout).entries|
  {
    Init(layout) + [Segment(Last(layout).name, Last(layout).entries[..k])]
  }

  lemma {:induction false} CutShortChained(layout: seq<Segment>, k: nat)
    requires Chained(layout) && layout != [] && Last(layout).name.Active? && k <= |Last(layout).entries|
    ensures Chained(CutShort(layout, k)) && Log(CutShort(layout, k)) == Log(Init(layout)) + Last(layout).entries[..k]
  {
    hide Log;
    ChainedInit(layout);
    ChainedLast(Init(layout), Segment(Last(layout).name, Last(layout).entries[..k]));
  }

  /** Reads the files in the order given, and stops at the first that does not read. */
  method ReadFiles(codec: Codec, files: Files, names: seq<Name>) returns (r: Result<seq<Segment>, FrameError>)
    requires forall i :: 0 <= i < |names| ==> names[i] in files
    ensures r.Ok? <==> forall i :: 0 <= i < |names| ==> Entries(codec.hash, codec.decode, files[names[i]]).Ok?
    ensures r.Ok? ==> Names(r.value) == names
    ensures r.Ok? ==> forall i :: 0 <= i < |names| ==>
              Entries(codec.hash, codec.decode, files[names[i]]) == Ok(r.value[i].entries)
  {
    hide Entries;
    var layout: seq<Segment> := [];
    var i := 0;
    while i < |names|
      invariant i <= |names| && |layout| == i
      invariant forall j :: 0 <= j < i ==>
                  && layout[j].name == names[j]
                  && Entries(codec.hash, codec.decode, files[names[j]]) == Ok(layout[j].entries)
    {
      var entries := ReadEntries(codec.hash, codec.decode, files[names[i]]);
      if entries.Err? {
        return Err(entries.error);
      }
      layout := layout + [Segment(names[i], entries.value)];
      i := i + 1;
    }
    r := Ok(layout);
  }

  /** What each file of a cut directory reads as. */
  lemma {:induction false} FilesRead(codec: Codec, files: Files, dir: Directory, layout: seq<Segment>, n: nat, i: nat)
    requires HoldsBytes(codec, files, dir, layout, n) && i < |layout|
    ensures layout[i].name in files
    ensures var entries, k := layout[i].entries, Whole(codec.encode, Last(layout).entries, n);
            Entries(codec.hash, codec.decode, files[layout[i].name]) ==
            if i < |layout| - 1 then Ok(entries)
            else if Extent(codec.encode, entries, k) == n then Ok(entries[..k]) else Err(Truncated)
  {
    hide Entries, Whole, Extent;
    if i < |layout| - 1 {
      ReadBackExactly(codec.hash, codec.encode, codec.decode, layout[i].entries);
    } else {
      CutExactly(codec.hash, codec.encode, codec.decode, layout[i].entries, n);
    }
  }

  /**
    Replay of the byte files, in whatever order they are listed: everything up to the cut if the open file is cut at a
    frame boundary, and an error otherwise.  No torn entry is returned and none before the cut is lost.
   */
  method ReplayFiles(codec: Codec, files: Files, listing: seq<Name>, ghost dir: Directory, ghost layout: seq<Segment>,
                     ghost n: nat)
    returns (r: Option<seq<Entry>>)
    requires multiset(listing) == multiset(files.Keys) && Chained(layout) && HoldsBytes(codec, files, dir, layout, n)
    ensures var k := Whole(codec.encode, Last(layout).entries, n);
            r == if Extent(codec.encode, Last(layout).entries, k) == n
                 then Some(Log(Init(layout)) + Last(layout).entries[..k]) else None
  {
    hide Entries, Whole, Extent, Chained, HoldsBytes, Holds, Log, Readable;
    NotEmpty(codec, files, dir, layout, n);
    var names := SortNames(listing);
    SortedListing(dir, layout, listing, names);
    ghost var k := Whole(codec.encode, Last(layout).entries, n);
    forall i | 0 <= i < |layout|
      ensures layout[i].name in files
      ensures Entries(codec.hash, codec.decode, files[layout[i].name]) ==
              if i < |layout| - 1 then Ok(layout[i].entries)
              else if Extent(codec.encode, Last(layout).entries, k) == n then Ok(Last(layout).entries[..k])
              else Err(Truncated)
    {
      FilesRead(codec, files, dir, layout, n, i);
    }
    var read := ReadFiles(codec, files, names);
    if read.Err? {
      return None;
    }
    assert read.value == CutShort(layout, k);
    CutShortChained(layout, k);
    ChainedReadable(read.value);
    var log := ReplaySegments(read.value);
    r := Some(log.value);
  }

  lemma {:induction false} NotEmpty(codec: Codec, files: Files, dir: Directory, layout: seq<Segment>, n: nat)
    requires HoldsBytes(codec, files, dir, layout, n)
    ensures layout != [] && Last(layout).name.Active? && Holds(dir, layout) && files.Keys == dir.Keys
  {
  }

  // ---------------------------------------------------------------- a snapshot

  /** The writer's files hold the log the engine keeps, and the next entry goes after it. */
  ghost predicate Together(engine: E.Engine, writer: WalWriter)
    reads engine, engine.state, writer
  {
    && engine.Valid() && writer.Valid()
    && Log(writer.layout) == engine.walEntries && writer.NextSequence() == engine.state.metadata.lastApplied + 1
  }

  /** The model's snapshot step. */
  ghost function Snapped(db: Database, now: u64, keepFrom: nat): Database
    requires db.clock <= now < U64_MAX && db.retained <= keepFrom <= |db.log|
  {
    Recovery.After(db, Recovery.TakeSnapshot(now, keepFrom))
  }

  /**
    A snapshot, engine and files: the writer seals, starts a new segment and prunes; the engine keeps exactly what
    replaying the directory gives back, and the database takes the model's snapshot step.
   */
  method TakeSnapshot(engine: E.Engine, writer: WalWriter, now: u64, retain: nat, ghost db: Database)
    returns (ghost drop: nat)
    requires Together(engine, writer) && Shows(engine, db) && db.clock <= now < U64_MAX
    requires engine.state.metadata.lastApplied < U64_MAX
    modifies engine, engine.state, writer
    ensures Together(engine, writer) && drop <= |old(engine.walEntries)|
    ensures writer.appended == old(writer.appended) && writer.pruned == old(writer.pruned) + drop
    ensures db.retained + drop <= |db.log| && Shows(engine, Snapped(db, now, db.retained + drop))
  {
    hide CacheKept, Purge, Log, Chained, Holds, Continues, SizeOf;
    drop := writer.Cut(engine.state.metadata.lastApplied, retain);
    var listing := ListFiles(writer.dir);
    var kept := Replay(writer.dir, listing, writer.layout);
    SnapshotAndPrune(engine, now, |engine.walEntries| - |kept.value|, db);
  }
}
