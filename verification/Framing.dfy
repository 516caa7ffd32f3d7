/**
  The byte format of a segment file: length, checksum, payload, one frame after another.  The payload codec (with or
  without encryption) and the checksum are parameters.
 */
module Framing {
  import opened Base
  import opened Numbers

  const MAX_ENTRY_SIZE: nat := 4 * 1024 * 1024
  const U32_LIMIT: nat := 0x1_0000_0000

  type u32 = x: int | 0 <= x < U32_LIMIT

  datatype FrameError = Truncated | InvalidLength | ChecksumMismatch | Undecodable | TooLarge

  function ToLe(n: u32): (r: Bytes)
    ensures |r| == 4
  {
    [n % 256, n / 256 % 256, n / 256 / 256 % 256, n / 256 / 256 / 256]
  }

  function FromLe(b: Bytes): u32
    requires |b| == 4
  {
    b[0] as int + 256 * (b[1] as int + 256 * (b[2] as int + 256 * (b[3] as int)))
  }

  /** The number four bytes stand for, the lowest first. */
  function LittleEndian(a: byte, b: byte, c: byte, d: byte): int {
    a as int + 0x100 * (b as int) + 0x1_0000 * (c as int) + 0x100_0000 * (d as int)
  }

  lemma {:induction false} LeRoundTrip(n: u32)
    ensures FromLe(ToLe(n)) == n
    ensures var s := ToLe(n); LittleEndian(s[0], s[1], s[2], s[3]) == n
  {
    var a := n / 256;
    var b := a / 256;
    assert n == n % 256 + 256 * a && a == a % 256 + 256 * b && b == b % 256 + 256 * (b / 256);
    assert ToLe(n) == [n % 256, a % 256, b % 256, b / 256];
  }

  /** What a 32-bit length can describe. */
  type Payload = p: Bytes | |p| < U32_LIMIT

  function Frame(hash: Bytes -> u32, payload: Payload): (r: Bytes)
    ensures |r| == 8 + |payload|
  {
    ToLe(|payload|) + ToLe(hash(payload)) + payload
  }

  /** `append_encoded_entry`: refuses only what a 32-bit length cannot say. */
  function AppendFrame(hash: Bytes -> u32, file: Bytes, payload: Bytes): Result<Bytes, FrameError> {
    if |payload| >= U32_LIMIT then Err(TooLarge) else Ok(file + Frame(hash, payload))
  }

  /** The file a list of appends leaves. */
  function Written<E>(hash: Bytes -> u32, encode: E -> Payload, entries: seq<E>): Bytes {
    if entries == [] then [] else Frame(hash, encode(entries[0])) + Written(hash, encode, entries[1..])
  }

  /** The frame at the front of a file: its entry, and where the next one starts. */
  function FirstFrame<E>(hash: Bytes -> u32, decode: Bytes -> Option<E>, file: Bytes): (r: Result<(E, nat), FrameError>)
    ensures r.Ok? ==> 8 < r.value.1 <= |file|
  {
    if |file| < 4 then Err(Truncated)
    else
      var length := FromLe(file[..4]);
      if length == 0 || length > MAX_ENTRY_SIZE then Err(InvalidLength)
      else if |file| < 8 + length then Err(Truncated)
      else
        var payload := file[8..8 + length];
        if hash(payload) != FromLe(file[4..8]) then Err(ChecksumMismatch)
        else if decode(payload).None? then Err(Undecodable)
        else Ok((decode(payload).value, 8 + length))
  }

  function Entries<E>(hash: Bytes -> u32, decode: Bytes -> Option<E>, file: Bytes): Result<seq<E>, FrameError>
    decreases |file|
  {
    if file == [] then Ok([])
    else
      var first := FirstFrame(hash, decode, file);
      if first.Err? then Err(first.error)
      else
        var rest := Entries(hash, decode, file[first.value.1..]);
        if rest.Err? then rest else Ok([first.value.0] + rest.value)
  }

  /** One turn of the read loop, with its reads and checks in the source's order. */
  method ReadFrame<E>(hash: Bytes -> u32, decode: Bytes -> Option<E>, file: Bytes, at: nat)
    returns (r: Result<(E, nat), FrameError>)
    requires at < |file|
    ensures r == FirstFrame(hash, decode, file[at..])
  {
    ghost var front := file[at..];
    if |file| - at < 4 {
      return Err(Truncated);
    }
    var length := FromLe(file[at..at + 4]);
    assert front[..4] == file[at..at + 4];
    if length == 0 || length > MAX_ENTRY_SIZE {
      return Err(InvalidLength);
    }
    if |file| - at < 8 {
      return Err(Truncated);
    }
    var checksum := FromLe(file[at + 4..at + 8]);
    assert front[4..8] == file[at + 4..at + 8];
    if |file| - at < 8 + length {
      return Err(Truncated);
    }
    var payload := file[at + 8..at + 8 + length];
    assert front[8..8 + length] == payload;
    if hash(payload) != checksum {
      return Err(ChecksumMismatch);
    }
    var entry := decode(payload);
    r := if entry.None? then Err(Undecodable) else Ok((entry.value, 8 + length));
  }

  /** `read_entries_from_reader`. */
  method ReadEntries<E>(hash: Bytes -> u32, decode: Bytes -> Option<E>, file: Bytes)
    returns (r: Result<seq<E>, FrameError>)
    ensures r == Entries(hash, decode, file)
  {
    hide FirstFrame;
    var entries: seq<E> := [];
    var at := 0;
    assert file[0..] == file;
    NothingPrepended(Entries(hash, decode, file));
    while at < |file|
      invariant at <= |file|
      invariant Entries(hash, decode, file) == Prepended(entries, Entries(hash, decode, file[at..]))
    {
      ghost var front := file[at..];
      var frame := ReadFrame(hash, decode, file, at);
      if frame.Err? {
        return Err(frame.error);
      }
      var (entry, size) := frame.value;
      assert front[size..] == file[at + size..];
      ghost var rest := Entries(hash, decode, front[size..]);
      assert rest.Ok? ==> entries + ([entry] + rest.value) == entries + [entry] + rest.value;
      entries := entries + [entry];
      at := at + size;
    }
    assert entries + [] == entries;
    r := Ok(entries);
  }

  function Prepended<E>(entries: seq<E>, rest: Result<seq<E>, FrameError>): Result<seq<E>, FrameError> {
    if rest.Err? then rest else Ok(entries + rest.value)
  }

  lemma {:induction false} NothingPrepended<E>(rest: Result<seq<E>, FrameError>)
    ensures Prepended([], rest) == rest
  {
    if rest.Ok? {
      assert [] + rest.value == rest.value;
    }
  }

  // ---------------------------------------------------------------- the format, byte by byte

  /**
    The file starts with a frame for `e` that ends at `n`: a length between one byte and four mebibytes, the hash of
    the payload, and the payload, which decodes to `e`.
   */
  ghost predicate StartsWith<E>(hash: Bytes -> u32, decode: Bytes -> Option<E>, file: Bytes, e: E, n: nat) {
    && 8 < n <= |file| && n - 8 <= 4_194_304
    && LittleEndian(file[0], file[1], file[2], file[3]) == n - 8
    && LittleEndian(file[4], file[5], file[6], file[7]) == hash(file[8..n])
    && decode(file[8..n]) == Some(e)
  }

  lemma {:induction false} FrameExactly<E>(hash: Bytes -> u32, decode: Bytes -> Option<E>, file: Bytes, e: E, n: nat)
    ensures FirstFrame(hash, decode, file) == Ok((e, n)) <==> StartsWith(hash, decode, file, e, n)
  {
    if |file| >= 4 {
      assert file[..4] == [file[0], file[1], file[2], file[3]];
      if |file| >= 8 {
        assert file[4..8] == [file[4], file[5], file[6], file[7]];
      }
    }
  }

  /** What an append writes. */
  lemma {:induction false} FrameLayout(hash: Bytes -> u32, payload: Payload)
    ensures var f := Frame(hash, payload);
            && LittleEndian(f[0], f[1], f[2], f[3]) == |payload|
            && LittleEndian(f[4], f[5], f[6], f[7]) == hash(payload) && f[8..] == payload
  {
    LeRoundTrip(|payload|);
    LeRoundTrip(hash(payload));
  }

  /** Other bytes in the place of a payload are refused, unless they have its hash. */
  lemma {:induction false} DamageShows<E>(hash: Bytes -> u32, decode: Bytes -> Option<E>, payload: Payload,
                                          other: Bytes, rest: Bytes)
    requires 0 < |payload| <= 4_194_304 && |other| == |payload| && hash(other) != hash(payload)
    ensures Entries(hash, decode, Frame(hash, payload)[..8] + other + rest) == Err(ChecksumMismatch)
  {
    var head := Frame(hash, payload)[..8];
    var file := head + other + rest;
    LeRoundTrip(|payload|);
    LeRoundTrip(hash(payload));
    assert file[..4] == ToLe(|payload|) && file[4..8] == ToLe(hash(payload)) && file[8..8 + |payload|] == other;
  }

  // ---------------------------------------------------------------- a file cut anywhere

  /** The codec round-trips this entry. */
  ghost predicate Decodes<E>(encode: E -> Payload, decode: Bytes -> Option<E>, e: E) {
    decode(encode(e)) == Some(e)
  }

  /** The reader accepts the entry's length. */
  predicate Fits<E>(encode: E -> Payload, e: E) {
    0 < |encode(e)| <= 4_194_304
  }

  /** How many whole frames fit in the first `n` bytes. */
  function Whole<E>(encode: E -> Payload, entries: seq<E>, n: nat): (k: nat)
    ensures k <= |entries|
    decreases |entries|
  {
    if entries == [] || n < 8 + |encode(entries[0])| then 0
    else 1 + Whole(encode, entries[1..], n - 8 - |encode(entries[0])|)
  }

  /** The bytes of the first `k` frames. */
  function Extent<E>(encode: E -> Payload, entries: seq<E>, k: nat): nat
    requires k <= |entries|
    decreases |entries|
  {
    if k == 0 then 0 else 8 + |encode(entries[0])| + Extent(encode, entries[1..], k - 1)
  }

  lemma {:induction false} FrontOfFrame<E>(hash: Bytes -> u32, encode: E -> Payload, decode: Bytes -> Option<E>, e: E,
                                           rest: Bytes)
    requires Decodes(encode, decode, e)
    ensures FirstFrame(hash, decode, Frame(hash, encode(e)) + rest) ==
            if Fits(encode, e) then Ok((e, 8 + |encode(e)|)) else Err(InvalidLength)
    ensures (Frame(hash, encode(e)) + rest)[8 + |encode(e)|..] == rest
  {
    var payload := encode(e);
    var file := Frame(hash, payload) + rest;
    LeRoundTrip(|payload|);
    LeRoundTrip(hash(payload));
    assert file[..4] == ToLe(|payload|) && file[4..8] == ToLe(hash(payload)) && file[8..8 + |payload|] == payload;
  }

  /** Part of a frame, and not none of it: reading it fails. */
  lemma {:induction false} TornFrame<E>(hash: Bytes -> u32, encode: E -> Payload, decode: Bytes -> Option<E>, e: E,
                                        n: nat)
    requires Fits(encode, e) && 0 < n < 8 + |encode(e)|
    ensures Entries(hash, decode, Frame(hash, encode(e))[..n]) == Err(Truncated)
  {
    var torn := Frame(hash, encode(e))[..n];
    if n >= 4 {
      LeRoundTrip(|encode(e)|);
      assert torn[..4] == ToLe(|encode(e)|);
    }
  }

  /**
    A segment cut after any number of bytes reads back exactly its whole frames if the cut is a frame boundary, and
    fails otherwise: no torn entry is ever returned, and none before the cut is lost.
   */
  lemma {:induction false} CutExactly<E>(hash: Bytes -> u32, encode: E -> Payload, decode: Bytes -> Option<E>,
                                         entries: seq<E>, n: nat)
    requires forall e :: e in entries ==> Decodes(encode, decode, e) && Fits(encode, e)
    requires n <= |Written(hash, encode, entries)|
    ensures var k := Whole(encode, entries, n);
            && Extent(encode, entries, k) <= n
            && Entries(hash, decode, Written(hash, encode, entries)[..n]) ==
               if Extent(encode, entries, k) == n then Ok(entries[..k]) else Err(Truncated)
    decreases |entries|
  {
    hide Decodes, Fits, FirstFrame, Frame;
    var file := Written(hash, encode, entries)[..n];
    if entries == [] {
      assert file == [] && entries[..0] == [];
    } else if n < 8 + |encode(entries[0])| {
      assert file == Frame(hash, encode(entries[0]))[..n];
      if n == 0 {
        assert file == [] && entries[..0] == [];
      } else {
        TornFrame(hash, encode, decode, entries[0], n);
      }
    } else {
      var size, rest := 8 + |encode(entries[0])|, entries[1..];
      var tail := Written(hash, encode, rest)[..n - size];
      assert file == Frame(hash, encode(entries[0])) + tail;
      FrontOfFrame(hash, encode, decode, entries[0], tail);
      CutExactly(hash, encode, decode, rest, n - size);
      assert entries[..1 + Whole(encode, rest, n - size)] == [entries[0]] + rest[..Whole(encode, rest, n - size)];
    }
  }

  /**
    The writer's limit is not the reader's: what was appended reads back, entry for entry, if and only if every
    payload is between one byte and four mebibytes; otherwise reading fails.
   */
  lemma {:induction false} ReadBackExactly<E>(hash: Bytes -> u32, encode: E -> Payload, decode: Bytes -> Option<E>,
                                              entries: seq<E>)
    requires forall e :: e in entries ==> Decodes(encode, decode, e)
    ensures var r := Entries(hash, decode, Written(hash, encode, entries));
            if forall e :: e in entries ==> Fits(encode, e) then r == Ok(entries) else r == Err(InvalidLength)
    decreases |entries|
  {
    hide Decodes, Fits, FirstFrame, Frame;
    if entries != [] {
      var rest := entries[1..];
      FrontOfFrame(hash, encode, decode, entries[0], Written(hash, encode, rest));
      ReadBackExactly(hash, encode, decode, rest);
      assert entries == [entries[0]] + rest;
    }
  }
}
