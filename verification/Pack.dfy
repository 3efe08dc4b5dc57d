/**
 The pack file format: blobs one after the other, then the sealed header with
 one entry per blob, then the length of the sealed header.
 */
module Packs {
  import opened Blobs
  import opened Crypto

  const HEADER_LENGTH_SIZE: nat := 4
  const ENTRY_SIZE: nat := 1 + HEADER_LENGTH_SIZE + ID_SIZE
  const HEADER_SIZE: nat := HEADER_LENGTH_SIZE + EXTENSION
  const MIN_FILE_SIZE: nat := ENTRY_SIZE + EXTENSION + HEADER_LENGTH_SIZE
  const MAX_HEADER_SIZE: nat := 16 * 1024 * 1024
  const EAGER_ENTRIES: nat := 15

  datatype Error = FileTooSmall | ReadFailed | HeaderLengthZero | HeaderTooSmall | HeaderLengthInvalid
                 | HeaderLargerThanFile | HeaderLargerThanMax | EntryTooShort | InvalidType | OpenFailed

  datatype Result<+T> = Ok(value: T) | Err(error: Error)

  // ---------------------------------------------------------------- numbers

  function LittleEndian(x: uint32): (b: seq<byte>)
    ensures |b| == 4
  {
    [x % 256, x / 256 % 256, x / 65536 % 256, x / 16777216 % 256]
  }

  function FromLittleEndian(b: seq<byte>): (x: uint32)
    requires |b| == 4
  {
    var b0: int, b1: int, b2: int, b3: int := b[0], b[1], b[2], b[3];
    b0 + 256 * b1 + 65536 * b2 + 16777216 * b3
  }

  lemma LittleEndianRoundTrip(x: uint32)
    ensures FromLittleEndian(LittleEndian(x)) == x
  {
    var a, b, c := x / 256, x / 65536, x / 16777216;
    assert b == a / 256 && c == b / 256;
    assert c % 256 == c;
  }

  // ---------------------------------------------------------------- header entries

  predicate Storable(t: BlobType) {
    t.DataBlob? || t.TreeBlob?
  }

  /** Bytes past the fourth are lost when a length is written. */
  function EncodeEntry(b: Blob): (e: seq<byte>)
    requires Storable(b.handle.tpe)
    ensures |e| == ENTRY_SIZE
  {
    [if b.handle.tpe.DataBlob? then 0 else 1] + LittleEndian(b.length % UINT32_RANGE) + b.handle.id
  }

  function ParseHeaderEntry(p: seq<byte>): (r: Result<Blob>) {
    if |p| < ENTRY_SIZE then Err(EntryTooShort)
    else if p[0] != 0 && p[0] != 1 then Err(InvalidType)
    else
      var id: Id := p[5..ENTRY_SIZE];
      Ok(Blob(BlobHandle(id, if p[0] == 0 then DataBlob else TreeBlob), FromLittleEndian(p[1..5]), 0))
  }

  /** An entry is read back whatever follows it, but without its offset. */
  lemma EntryRoundTrip(b: Blob, rest: seq<byte>)
    requires Storable(b.handle.tpe) && b.length < UINT32_RANGE
    ensures ParseHeaderEntry(EncodeEntry(b) + rest) == Ok(b.(offset := 0))
  {
    var p := EncodeEntry(b) + rest;
    assert p[1..5] == LittleEndian(b.length);
    assert p[5..ENTRY_SIZE] == b.handle.id;
    LittleEndianRoundTrip(b.length);
  }

  // ---------------------------------------------------------------- headers

  function EncodeHeader(blobs: seq<Blob>): (h: seq<byte>)
    requires forall k :: 0 <= k < |blobs| ==> Storable(blobs[k].handle.tpe)
    ensures |h| == |blobs| * ENTRY_SIZE
  {
    if blobs == [] then []
    else EncodeHeader(blobs[..|blobs| - 1]) + EncodeEntry(blobs[|blobs| - 1])
  }

  /** Reads entries until the header is used up, laying the blobs out from `pos` on. */
  function ParseEntries(buf: seq<byte>, pos: nat): (r: Result<seq<Blob>>)
    decreases |buf|
  {
    if buf == [] then Ok([])
    else
      match ParseHeaderEntry(buf)
      case Err(e) => Err(e)
      case Ok(entry) =>
        match ParseEntries(buf[ENTRY_SIZE..], pos + entry.length)
        case Err(e) => Err(e)
        case Ok(more) => Ok([entry.(offset := pos)] + more)
  }

  function TotalLength(blobs: seq<Blob>): nat {
    if blobs == [] then 0 else TotalLength(blobs[..|blobs| - 1]) + blobs[|blobs| - 1].length
  }

  /** The blobs lie one after the other, from `pos` on. */
  ghost predicate Consecutive(blobs: seq<Blob>, pos: nat) {
    forall k :: 0 <= k < |blobs| ==> blobs[k].offset == pos + TotalLength(blobs[..k])
  }

  lemma {:induction false} TotalLengthCons(b: Blob, blobs: seq<Blob>)
    ensures TotalLength([b] + blobs) == b.length + TotalLength(blobs)
  {
    if blobs == [] {
      assert ([b] + blobs)[..0] == [];
    } else {
      TotalLengthCons(b, blobs[..|blobs| - 1]);
      assert ([b] + blobs)[..|blobs|] == [b] + blobs[..|blobs| - 1];
    }
  }

  lemma {:induction false} EncodeHeaderCons(b: Blob, blobs: seq<Blob>)
    requires Storable(b.handle.tpe) && forall k :: 0 <= k < |blobs| ==> Storable(blobs[k].handle.tpe)
    ensures EncodeHeader([b] + blobs) == EncodeEntry(b) + EncodeHeader(blobs)
  {
    hide EncodeEntry;
    if blobs == [] {
      assert [b] + blobs == [b];
      assert [b][..0] == [];
    } else {
      EncodeHeaderCons(b, blobs[..|blobs| - 1]);
      assert ([b] + blobs)[..|blobs|] == [b] + blobs[..|blobs| - 1];
    }
  }

  ghost predicate Encodable(blobs: seq<Blob>) {
    forall k :: 0 <= k < |blobs| ==> Storable(blobs[k].handle.tpe) && blobs[k].length < UINT32_RANGE
  }

  lemma ParseEntriesCons(b: Blob, rest: seq<byte>, pos: nat, more: seq<Blob>)
    requires Storable(b.handle.tpe) && b.length < UINT32_RANGE && b.offset == pos
    requires ParseEntries(rest, pos + b.length) == Ok(more)
    ensures ParseEntries(EncodeEntry(b) + rest, pos) == Ok([b] + more)
  {
    hide EncodeEntry;
    hide ParseHeaderEntry;
    EntryRoundTrip(b, rest);
    assert (EncodeEntry(b) + rest)[ENTRY_SIZE..] == rest;
  }

  lemma ConsecutiveTail(blobs: seq<Blob>, pos: nat)
    requires Consecutive(blobs, pos) && blobs != []
    ensures blobs[0].offset == pos && Consecutive(blobs[1..], pos + blobs[0].length)
  {
    var b, rest := blobs[0], blobs[1..];
    assert blobs[..0] == [];
    forall k | 0 <= k < |rest| ensures rest[k].offset == pos + b.length + TotalLength(rest[..k]) {
      TotalLengthCons(b, rest[..k]);
      assert blobs[..k + 1] == [b] + rest[..k];
    }
  }

  /** Reading a written header gives back the blobs, offsets included. */
  lemma {:induction false} HeaderRoundTrip(blobs: seq<Blob>, pos: nat)
    requires Encodable(blobs) && Consecutive(blobs, pos)
    ensures ParseEntries(EncodeHeader(blobs), pos) == Ok(blobs)
    decreases |blobs|
  {
    hide EncodeEntry;
    hide ParseHeaderEntry;
    hide Consecutive;
    if blobs != [] {
      var b, rest := blobs[0], blobs[1..];
      ConsecutiveTail(blobs, pos);
      HeaderRoundTrip(rest, pos + b.length);
      ParseEntriesCons(b, EncodeHeader(rest), pos, rest);
      EncodeHeaderCons(b, rest);
      assert blobs == [b] + rest;
    }
  }

  // ---------------------------------------------------------------- reading the header

  /** Reads n bytes at an offset; a short read is an error. */
  function ReadAt(file: seq<byte>, off: int, n: nat): Result<seq<byte>> {
    if 0 <= off && off + n <= |file| then Ok(file[off..off + n]) else Err(ReadFailed)
  }

  /** How many bytes to read from a file of the given size in order to see `max` records. */
  function BufferSize(size: nat, max: nat): nat {
    var want := max * ENTRY_SIZE + EXTENSION + HEADER_LENGTH_SIZE;
    if want > size then size else want
  }

  /** The reasons not to accept a declared header length, in the order in which they are checked. */
  function CheckLength(hlen: nat, size: nat): Option<Error> {
    if hlen == 0 then Some(HeaderLengthZero)
    else if hlen < EXTENSION then Some(HeaderTooSmall)
    else if (hlen - EXTENSION) % ENTRY_SIZE != 0 then Some(HeaderLengthInvalid)
    else if hlen + HEADER_LENGTH_SIZE > size then Some(HeaderLargerThanFile)
    else if hlen > MAX_HEADER_SIZE then Some(HeaderLargerThanMax)
    else None
  }

  lemma BufferHoldsHeader(hlen: nat, size: nat, max: nat)
    requires CheckLength(hlen, size).None?
    ensures var total := (hlen - EXTENSION) / ENTRY_SIZE;
            && total * ENTRY_SIZE + EXTENSION == hlen
            && (total < max ==> hlen <= BufferSize(size, max) - HEADER_LENGTH_SIZE)
            && (total == max ==> hlen == BufferSize(size, max) - HEADER_LENGTH_SIZE)
  {
    var total := (hlen - EXTENSION) / ENTRY_SIZE;
    assert hlen - EXTENSION == total * ENTRY_SIZE;
    if total < max {
      assert total * ENTRY_SIZE < max * ENTRY_SIZE;
    }
  }

  /**
   Reads up to `max` records from the end of a file of the given size.  Yields
   the raw header, truncated to its beginning if it is shorter than the read,
   and the number of records that the file declares.
   */
  function ReadRecords(file: seq<byte>, size: nat, max: nat): Result<(seq<byte>, nat)>
    requires size >= MIN_FILE_SIZE && max >= 1
  {
    var bufsize := BufferSize(size, max);
    match ReadAt(file, size - bufsize, bufsize)
    case Err(e) => Err(e)
    case Ok(buf) =>
      var hlen: nat := FromLittleEndian(buf[|buf| - HEADER_LENGTH_SIZE..]);
      var b := buf[..|buf| - HEADER_LENGTH_SIZE];
      match CheckLength(hlen, size)
      case Some(e) => Err(e)
      case None =>
        BufferHoldsHeader(hlen, size, max);
        var total := (hlen - EXTENSION) / ENTRY_SIZE;
        Ok((if total < max then b[|b| - hlen..] else b, total))
  }

  /** The sealed header: one eager read, and a second one if that was too short. */
  function ReadHeader(file: seq<byte>, size: int): Result<seq<byte>> {
    if size < MIN_FILE_SIZE then Err(FileTooSmall)
    else
      match ReadRecords(file, size, EAGER_ENTRIES)
      case Err(e) => Err(e)
      case Ok((b, c)) =>
        if c <= EAGER_ENTRIES then Ok(b)
        else
          match ReadRecords(file, size, c)
          case Err(e) => Err(e)
          case Ok((b, _)) => Ok(b)
  }

  /** The header length a file declares in its last bytes. */
  function Declared(file: seq<byte>): nat
    requires |file| >= HEADER_LENGTH_SIZE
  {
    FromLittleEndian(file[|file| - HEADER_LENGTH_SIZE..])
  }

  predicate Acceptable(hlen: nat, size: nat) {
    && hlen >= EXTENSION && (hlen - EXTENSION) % ENTRY_SIZE == 0
    && hlen + HEADER_LENGTH_SIZE <= size && hlen <= MAX_HEADER_SIZE
  }

  lemma CheckLengthMeaning(hlen: nat, size: nat)
    ensures CheckLength(hlen, size).None? <==> Acceptable(hlen, size)
  {
  }

  /** Slices of the end of a file. */
  lemma FileEnd(file: seq<byte>, n: nat, hlen: nat)
    requires HEADER_LENGTH_SIZE <= n <= |file| && hlen <= n - HEADER_LENGTH_SIZE
    ensures var size := |file|; var buf := file[size - n..size - n + n]; var b := buf[..n - HEADER_LENGTH_SIZE];
            && buf[n - HEADER_LENGTH_SIZE..] == file[size - HEADER_LENGTH_SIZE..]
            && b[|b| - hlen..] == file[size - HEADER_LENGTH_SIZE - hlen..size - HEADER_LENGTH_SIZE]
  {
    var size := |file|;
    var buf := file[size - n..size];
    var m := n - HEADER_LENGTH_SIZE;
    SliceOfSlice(file, size - n, size, m, n);
    SliceOfSlice(file, size - n, size, 0, m);
    SliceOfSlice(file, size - n, size - HEADER_LENGTH_SIZE, m - hlen, m);
    assert buf[m..] == buf[m..n] && buf[..m] == buf[0..m];
  }

  /** One read succeeds exactly if the declared length is acceptable, and then yields the end of the header. */
  lemma ReadRecordsMeaning(file: seq<byte>, max: nat)
    requires |file| >= MIN_FILE_SIZE && max >= 1
    ensures var r := ReadRecords(file, |file|, max);
            var hlen := Declared(file);
            && (r.Ok? <==> Acceptable(hlen, |file|))
            && (r.Err? ==> CheckLength(hlen, |file|) == Some(r.error))
            && (r.Ok? ==> r.value.1 * ENTRY_SIZE + EXTENSION == hlen)
            && (r.Ok? && r.value.1 <= max ==>
                  r.value.0 == file[|file| - HEADER_LENGTH_SIZE - hlen..|file| - HEADER_LENGTH_SIZE])
  {
    hide FromLittleEndian;
    hide CheckLength;
    hide Acceptable;
    var n := BufferSize(|file|, max);
    FileEnd(file, n, 0);
    var hlen := Declared(file);
    CheckLengthMeaning(hlen, |file|);
    if CheckLength(hlen, |file|).None? {
      BufferHoldsHeader(hlen, |file|, max);
      var total := (hlen - EXTENSION) / ENTRY_SIZE;
      if total <= max {
        FileEnd(file, n, hlen);
        ghost var b := file[|file| - n..|file| - n + n][..n - HEADER_LENGTH_SIZE];
        assert total == max ==> b[|b| - hlen..] == b;
      }
    }
  }

  /**
   Reading succeeds exactly for acceptable declarations, and yields exactly the
   declared bytes; the error tells what is wrong with the declaration.
   */
  lemma ReadHeaderMeaning(file: seq<byte>)
    ensures var r := ReadHeader(file, |file|);
            && (r.Ok? <==> |file| >= MIN_FILE_SIZE && Acceptable(Declared(file), |file|))
            && (|file| < MIN_FILE_SIZE ==> r == Err(FileTooSmall))
            && (|file| >= MIN_FILE_SIZE && r.Err? ==> CheckLength(Declared(file), |file|) == Some(r.error))
            && (r.Ok? ==>
                  r.value == file[|file| - HEADER_LENGTH_SIZE - Declared(file)..|file| - HEADER_LENGTH_SIZE])
  {
    hide ReadRecords;
    hide Acceptable;
    if |file| >= MIN_FILE_SIZE {
      ReadRecordsMeaning(file, EAGER_ENTRIES);
      var r := ReadRecords(file, |file|, EAGER_ENTRIES);
      if r.Ok? && r.value.1 > EAGER_ENTRIES {
        ReadRecordsMeaning(file, r.value.1);
      }
    }
  }

  // ---------------------------------------------------------------- listing

  /** What listing a pack file yields: its blobs and the size of its header. */
  function Listing(key: Key, file: seq<byte>, size: int): Result<(seq<Blob>, nat)> {
    match ReadHeader(file, size)
    case Err(e) => Err(e)
    case Ok(buf) =>
      if |buf| < EXTENSION then Err(HeaderTooSmall)
      else
        match key.Opened(buf)
        case None => Err(OpenFailed)
        case Some(header) =>
          match ParseEntries(header, 0)
          case Err(e) => Err(e)
          case Ok(blobs) => Ok((blobs, HEADER_LENGTH_SIZE + |buf|))
  }

  method List(key: Key, file: seq<byte>, size: int) returns (r: Result<(seq<Blob>, nat)>)
    ensures r == Listing(key, file, size)
  {
    hide ReadHeader;
    hide ParseHeaderEntry;
    var header := ReadHeader(file, size);
    if header.Err? {
      return Err(header.error);
    }
    if |header.value| < EXTENSION {
      return Err(HeaderTooSmall);
    }
    var plain := key.Opened(header.value);
    if plain.None? {
      return Err(OpenFailed);
    }
    var buf, pos, entries := plain.value, 0, [];
    PrefixedEnds(ParseEntries(buf, pos), []);
    while |buf| > 0
      invariant pos >= 0
      invariant Prefixed(entries, ParseEntries(buf, pos)) == ParseEntries(plain.value, 0)
      decreases |buf|
    {
      var entry := ParseHeaderEntry(buf);
      if entry.Err? {
        return Err(entry.error);
      }
      EntryLongEnough(buf);
      PrefixedStep(entries, entry.value.(offset := pos), ParseEntries(buf[ENTRY_SIZE..], pos + entry.value.length));
      entries := entries + [entry.value.(offset := pos)];
      pos := pos + entry.value.length;
      buf := buf[ENTRY_SIZE..];
    }
    PrefixedEnds(Ok([]), entries);
    r := Ok((entries, HEADER_LENGTH_SIZE + |header.value|));
  }

  ghost function Prefixed(blobs: seq<Blob>, r: Result<seq<Blob>>): Result<seq<Blob>> {
    match r
    case Err(e) => Err(e)
    case Ok(more) => Ok(blobs + more)
  }

  lemma PrefixedStep(blobs: seq<Blob>, b: Blob, r: Result<seq<Blob>>)
    ensures Prefixed(blobs, Prefixed([b], r)) == Prefixed(blobs + [b], r)
  {
    if r.Ok? { assert blobs + ([b] + r.value) == blobs + [b] + r.value; }
  }

  lemma PrefixedEnds(r: Result<seq<Blob>>, blobs: seq<Blob>)
    ensures Prefixed([], r) == r
    ensures Prefixed(blobs, Ok([])) == Ok(blobs)
  {
    if r.Ok? { assert [] + r.value == r.value; }
    assert blobs + [] == blobs;
  }

  lemma EntryLongEnough(p: seq<byte>)
    ensures ParseHeaderEntry(p).Ok? ==> |p| >= ENTRY_SIZE
  {
  }

  // ---------------------------------------------------------------- writing

  class Packer {
    var blobs: seq<Blob>
    var bytes: nat
    const key: Key
    var file: seq<byte>   // what has been written to the underlying writer

    /** Before finalization: the blobs cover the file, one after the other. */
    ghost predicate Open()
      reads this
    {
      bytes == |file| == TotalLength(blobs) && Consecutive(blobs, 0)
    }

    constructor (key: Key)
      ensures Open() && blobs == [] && file == [] && this.key == key
    {
      this.key := key;
      blobs, bytes, file := [], 0, [];
    }

    /** Appends a blob; it can be found at the offset recorded for it. */
    method Add(t: BlobType, id: Id, data: seq<byte>) returns (n: nat)
      requires Open()
      modifies this
      ensures Open() && n == |data| && file == old(file) + data
      ensures blobs == old(blobs) + [Blob(BlobHandle(id, t), |data|, |old(file)|)]
    {
      file := file + data;
      var c := Blob(BlobHandle(id, t), |data|, bytes);
      bytes := bytes + |data|;
      ConsecutivePush(blobs, c);
      blobs := blobs + [c];
      n := |data|;
    }

    /** The plain header; there is no encoding for blobs of another type. */
    method MakeHeader() returns (r: Result<seq<byte>>)
      ensures r.Ok? <==> forall k :: 0 <= k < |blobs| ==> Storable(blobs[k].handle.tpe)
      ensures r.Ok? ==> r.value == EncodeHeader(blobs)
    {
      var buf := [];
      for k := 0 to |blobs|
        invariant forall j :: 0 <= j < k ==> Storable(blobs[j].handle.tpe)
        invariant buf == EncodeHeader(blobs[..k])
      {
        if !Storable(blobs[k].handle.tpe) {
          return Err(InvalidType);
        }
        assert blobs[..k + 1][..k] == blobs[..k];
        buf := buf + EncodeEntry(blobs[k]);
      }
      assert blobs[..|blobs|] == blobs;
      r := Ok(buf);
    }

    /** Appends the sealed header and its length. */
    method Finalize(nonce: seq<byte>) returns (r: Result<nat>)
      requires Open() && key.Lawful() && |nonce| == NONCE_SIZE
      modifies this
      ensures blobs == old(blobs)
      ensures r.Ok? <==> forall k :: 0 <= k < |blobs| ==> Storable(blobs[k].handle.tpe)
      ensures r.Err? ==> file == old(file) && bytes == old(bytes)
      ensures r.Ok? ==> file == Packed(key, nonce, old(file), blobs) && r.value == bytes == |file|
    {
      var header := MakeHeader();
      if header.Err? {
        return Err(header.error);
      }
      key.OpenedSealed(nonce, header.value);
      file := file + key.Sealed(nonce, header.value);
      file := file + LittleEndian((|blobs| * ENTRY_SIZE + EXTENSION) % UINT32_RANGE);
      bytes := bytes + |header.value| + EXTENSION + HEADER_LENGTH_SIZE;
      r := Ok(bytes);
    }
  }

  lemma ConsecutivePush(blobs: seq<Blob>, b: Blob)
    requires Consecutive(blobs, 0) && b.offset == TotalLength(blobs)
    ensures Consecutive(blobs + [b], 0) && TotalLength(blobs + [b]) == TotalLength(blobs) + b.length
  {
    assert (blobs + [b])[..|blobs|] == blobs;
    forall k | 0 <= k < |blobs| ensures (blobs + [b])[k].offset == TotalLength((blobs + [b])[..k]) {
      assert (blobs + [b])[..k] == blobs[..k];
    }
  }

  /** A finished pack file. */
  function Packed(key: Key, nonce: seq<byte>, body: seq<byte>, blobs: seq<Blob>): seq<byte>
    requires forall k :: 0 <= k < |blobs| ==> Storable(blobs[k].handle.tpe)
  {
    body + key.Sealed(nonce, EncodeHeader(blobs)) + LittleEndian((|blobs| * ENTRY_SIZE + EXTENSION) % UINT32_RANGE)
  }

  /** The header is within the size that readers accept. */
  predicate HeaderFits(n: nat) {
    n * ENTRY_SIZE + EXTENSION <= MAX_HEADER_SIZE
  }

  /** The end of a finished pack declares the sealed header, and holds it. */
  lemma PackedEnds(key: Key, nonce: seq<byte>, body: seq<byte>, blobs: seq<Blob>)
    requires key.Lawful() && |nonce| == NONCE_SIZE
    requires forall k :: 0 <= k < |blobs| ==> Storable(blobs[k].handle.tpe)
    requires |blobs| * ENTRY_SIZE + EXTENSION < UINT32_RANGE
    ensures var file := Packed(key, nonce, body, blobs);
            var sealed := key.Sealed(nonce, EncodeHeader(blobs));
            && |sealed| == |blobs| * ENTRY_SIZE + EXTENSION == Declared(file)
            && |file| == |body| + |sealed| + HEADER_LENGTH_SIZE
            && file[|file| - HEADER_LENGTH_SIZE - |sealed|..|file| - HEADER_LENGTH_SIZE] == sealed
            && key.Opened(sealed) == Some(EncodeHeader(blobs))
  {
    hide FromLittleEndian;
    hide LittleEndian;
    hide EncodeHeader;
    var sealed := key.Sealed(nonce, EncodeHeader(blobs));
    key.OpenedSealed(nonce, EncodeHeader(blobs));
    hide Key.Sealed;
    var file := Packed(key, nonce, body, blobs);
    assert file[|file| - HEADER_LENGTH_SIZE..] == LittleEndian(|sealed|);
    LittleEndianRoundTrip(|sealed|);
  }

  lemma AcceptableIff(n: nat, size: nat)
    ensures Acceptable(n * ENTRY_SIZE + EXTENSION, size) <==>
            HeaderFits(n) && n * ENTRY_SIZE + EXTENSION + HEADER_LENGTH_SIZE <= size
  {
    assert n * ENTRY_SIZE % ENTRY_SIZE == 0;
  }

  /** The header of a finished pack can be read back exactly if there is an entry and they are not too many. */
  lemma PackedReadable(key: Key, nonce: seq<byte>, body: seq<byte>, blobs: seq<Blob>)
    requires key.Lawful() && |nonce| == NONCE_SIZE
    requires forall k :: 0 <= k < |blobs| ==> Storable(blobs[k].handle.tpe)
    requires |blobs| * ENTRY_SIZE + EXTENSION < UINT32_RANGE
    requires blobs == [] ==> body == []
    ensures var file := Packed(key, nonce, body, blobs);
            var r := ReadHeader(file, |file|);
            && (r.Ok? <==> blobs != [] && HeaderFits(|blobs|))
            && (r.Ok? ==> r.value == key.Sealed(nonce, EncodeHeader(blobs)))
  {
    hide ReadHeader;
    hide Packed;
    hide Declared;
    hide Acceptable;
    hide Key.Sealed;
    hide EncodeHeader;
    PackedEnds(key, nonce, body, blobs);
    ReadHeaderMeaning(Packed(key, nonce, body, blobs));
    AcceptableIff(|blobs|, |Packed(key, nonce, body, blobs)|);
  }

  /** Listing a finished pack gives back the blobs that were added, and the size of the header. */
  lemma PackRoundTrip(key: Key, nonce: seq<byte>, body: seq<byte>, blobs: seq<Blob>)
    requires key.Lawful() && |nonce| == NONCE_SIZE
    requires blobs != [] && Encodable(blobs) && Consecutive(blobs, 0) && HeaderFits(|blobs|)
    ensures var file := Packed(key, nonce, body, blobs);
            Listing(key, file, |file|) == Ok((blobs, HEADER_SIZE + |blobs| * ENTRY_SIZE))
  {
    hide ReadHeader;
    hide Packed;
    hide Declared;
    hide Key.Sealed;
    hide Key.Opened;
    hide EncodeHeader;
    hide Consecutive;
    PackedEnds(key, nonce, body, blobs);
    PackedReadable(key, nonce, body, blobs);
    HeaderRoundTrip(blobs, 0);
  }

  predicate LengthsFit(blobs: seq<Blob>) {
    forall k :: 0 <= k < |blobs| ==> blobs[k].length < UINT32_RANGE
  }

  /** Lengths that were read fit 32 bits. */
  lemma {:induction false} ParsedLengths(buf: seq<byte>, pos: nat)
    ensures var r := ParseEntries(buf, pos);
            r.Ok? ==> LengthsFit(r.value)
    decreases |buf|
  {
    if |buf| >= ENTRY_SIZE && ParseHeaderEntry(buf).Ok? {
      ParsedLengths(buf[ENTRY_SIZE..], pos + ParseHeaderEntry(buf).value.length);
    }
  }

  /** No header beyond the limit is ever listed, whatever length a file declares. */
  lemma ListedHeaderFits(key: Key, file: seq<byte>)
    ensures var r := Listing(key, file, |file|);
            r.Ok? ==> r.value.1 <= HEADER_LENGTH_SIZE + MAX_HEADER_SIZE
  {
    hide ReadHeader;
    hide ParseEntries;
    hide Declared;
    ReadHeaderMeaning(file);
  }

  /**
   The round trip succeeds exactly for packs with at least one blob, blob
   lengths below 2^32 and a header that readers accept.
   */
  lemma PackRoundTripExactly(key: Key, nonce: seq<byte>, body: seq<byte>, blobs: seq<Blob>)
    requires key.Lawful() && |nonce| == NONCE_SIZE
    requires Consecutive(blobs, 0) && |body| == TotalLength(blobs)
    requires forall k :: 0 <= k < |blobs| ==> Storable(blobs[k].handle.tpe)
    ensures var file := Packed(key, nonce, body, blobs);
            Listing(key, file, |file|) == Ok((blobs, HEADER_SIZE + |blobs| * ENTRY_SIZE))
            <==> blobs != [] && HeaderFits(|blobs|) && LengthsFit(blobs)
  {
    hide ReadHeader;
    hide Packed;
    hide Declared;
    hide Key.Sealed;
    hide Key.Opened;
    hide EncodeHeader;
    hide ParseEntries;
    hide Consecutive;
    if |blobs| * ENTRY_SIZE + EXTENSION >= UINT32_RANGE {
      ListedHeaderFits(key, Packed(key, nonce, body, blobs));
      return;
    }
    PackedEnds(key, nonce, body, blobs);
    PackedReadable(key, nonce, body, blobs);
    ParsedLengths(EncodeHeader(blobs), 0);
    if blobs != [] && HeaderFits(|blobs|) && LengthsFit(blobs) {
      PackRoundTrip(key, nonce, body, blobs);
    }
  }

  // ---------------------------------------------------------------- sizes from the index

  /** What an index entry adds to the size of its pack, or only to that of the header. */
  function EntryCost(pb: PackedBlob, onlyHdr: bool): nat {
    (if onlyHdr then 0 else pb.blob.length) + ENTRY_SIZE
  }

  ghost function PackCost(pbs: seq<PackedBlob>, id: Id, onlyHdr: bool): nat {
    if pbs == [] then 0
    else
      PackCost(pbs[..|pbs| - 1], id, onlyHdr) +
      if pbs[|pbs| - 1].packId == id then EntryCost(pbs[|pbs| - 1], onlyHdr) else 0
  }

  /** The sizes of all packs, computed from the entries of the index. */
  method PackSize(each: seq<PackedBlob>, onlyHdr: bool) returns (packSize: map<Id, nat>)
    ensures SizesOf(packSize, each, onlyHdr)
  {
    hide SizesOf;
    packSize := map[];
    SizesStart(onlyHdr);
    for k := 0 to |each|
      invariant SizesOf(packSize, each[..k], onlyHdr)
    {
      var pb := each[k];
      var size := if pb.packId in packSize then packSize[pb.packId] else HEADER_SIZE;
      if !onlyHdr {
        size := size + pb.blob.length;
      }
      assert each[..k + 1] == each[..k] + [pb];
      SizesStep(packSize, each[..k], pb, onlyHdr);
      packSize := packSize[pb.packId := size + ENTRY_SIZE];
    }
    assert each[..|each|] == each;
  }

  ghost function PackIds(each: seq<PackedBlob>): set<Id> {
    set pb | pb in each :: pb.packId
  }

  /** Exactly the packs that occur have a size: that of an empty pack and what their entries add. */
  ghost predicate SizesOf(packSize: map<Id, nat>, each: seq<PackedBlob>, onlyHdr: bool) {
    && packSize.Keys == PackIds(each)
    && (forall id :: PackCost(each, id, onlyHdr) == if id in packSize then packSize[id] - HEADER_SIZE else 0)
  }

  lemma SizesStart(onlyHdr: bool)
    ensures SizesOf(map[], [], onlyHdr)
  {
  }

  lemma PackCostPush(each: seq<PackedBlob>, pb: PackedBlob, id: Id, onlyHdr: bool)
    ensures PackCost(each + [pb], id, onlyHdr) ==
            PackCost(each, id, onlyHdr) + if pb.packId == id then EntryCost(pb, onlyHdr) else 0
  {
    assert (each + [pb])[..|each|] == each;
  }

  lemma PackIdsPush(each: seq<PackedBlob>, pb: PackedBlob)
    ensures PackIds(each + [pb]) == PackIds(each) + {pb.packId}
  {
    assert pb in each + [pb] && forall q :: q in each ==> q in each + [pb];
  }

  lemma SizesStep(packSize: map<Id, nat>, each: seq<PackedBlob>, pb: PackedBlob, onlyHdr: bool)
    requires SizesOf(packSize, each, onlyHdr)
    ensures var size := if pb.packId in packSize then packSize[pb.packId] else HEADER_SIZE;
            SizesOf(packSize[pb.packId := size + EntryCost(pb, onlyHdr)], each + [pb], onlyHdr)
  {
    hide PackCost;
    hide PackIds;
    hide EntryCost;
    var size := if pb.packId in packSize then packSize[pb.packId] else HEADER_SIZE;
    var next := packSize[pb.packId := size + EntryCost(pb, onlyHdr)];
    PackIdsPush(each, pb);
    assert next.Keys == packSize.Keys + {pb.packId};
    forall id ensures PackCost(each + [pb], id, onlyHdr) == if id in next then next[id] - HEADER_SIZE else 0 {
      PackCostPush(each, pb, id, onlyHdr);
    }
  }

  lemma {:induction false} PackCostConcat(a: seq<PackedBlob>, b: seq<PackedBlob>, id: Id, onlyHdr: bool)
    ensures PackCost(a + b, id, onlyHdr) == PackCost(a, id, onlyHdr) + PackCost(b, id, onlyHdr)
  {
    if b == [] {
      assert a + b == a;
    } else {
      PackCostConcat(a, b[..|b| - 1], id, onlyHdr);
      assert (a + b)[..|a + b| - 1] == a + b[..|b| - 1];
    }
  }

  lemma PackCostWithout(pbs: seq<PackedBlob>, p: nat, id: Id, onlyHdr: bool)
    requires p < |pbs|
    ensures PackCost(pbs, id, onlyHdr) ==
            PackCost(pbs[..p] + pbs[p + 1..], id, onlyHdr) + PackCost([pbs[p]], id, onlyHdr)
  {
    hide PackCost;
    var a, x, b := pbs[..p], [pbs[p]], pbs[p + 1..];
    assert pbs == a + (x + b);
    PackCostConcat(a, x + b, id, onlyHdr);
    PackCostConcat(x, b, id, onlyHdr);
    PackCostConcat(a, b, id, onlyHdr);
  }

  /** The order of the entries does not matter. */
  lemma {:induction false} PackCostReorders(a: seq<PackedBlob>, b: seq<PackedBlob>, id: Id, onlyHdr: bool)
    requires multiset(a) == multiset(b)
    ensures PackCost(a, id, onlyHdr) == PackCost(b, id, onlyHdr)
    decreases |a|
  {
    hide PackCost;
    if a == [] {
      assert |multiset(b)| == |b|;
      assert b == [];
    } else {
      var p := MatchHead(a, b);
      PackCostReorders(a[1..], b[..p] + b[p + 1..], id, onlyHdr);
      PackCostWithout(b, p, id, onlyHdr);
      PackCostWithout(a, 0, id, onlyHdr);
      assert a[..0] + a[1..] == a[1..];
    }
  }

  /** The index entries of one pack, as they are when nothing is indexed twice. */
  ghost function EntriesOf(pbs: seq<PackedBlob>, id: Id): seq<PackedBlob> {
    if pbs == [] then []
    else
      var rest := EntriesOf(pbs[..|pbs| - 1], id);
      if pbs[|pbs| - 1].packId == id then rest + [pbs[|pbs| - 1]] else rest
  }

  ghost function Located(blobs: seq<Blob>, id: Id): seq<PackedBlob> {
    seq(|blobs|, k requires 0 <= k < |blobs| => PackedBlob(blobs[k], id))
  }

  lemma {:induction false} PackCostEntries(pbs: seq<PackedBlob>, id: Id, onlyHdr: bool)
    ensures PackCost(EntriesOf(pbs, id), id, onlyHdr) == PackCost(pbs, id, onlyHdr)
  {
    if pbs != [] {
      PackCostEntries(pbs[..|pbs| - 1], id, onlyHdr);
      var rest := EntriesOf(pbs[..|pbs| - 1], id);
      assert (rest + [pbs[|pbs| - 1]])[..|rest|] == rest;
    }
  }

  lemma {:induction false} PackCostLocated(blobs: seq<Blob>, id: Id, onlyHdr: bool)
    ensures PackCost(Located(blobs, id), id, onlyHdr) ==
            |blobs| * ENTRY_SIZE + if onlyHdr then 0 else TotalLength(blobs)
  {
    if blobs != [] {
      PackCostLocated(blobs[..|blobs| - 1], id, onlyHdr);
      assert Located(blobs, id)[..|blobs| - 1] == Located(blobs[..|blobs| - 1], id);
    }
  }

  /**
   If the index lists the blobs of a pack exactly once each, the computed sizes
   are those of the pack file and of its header.
   */
  lemma PackSizeIsFileSize(key: Key, nonce: seq<byte>, body: seq<byte>, blobs: seq<Blob>, each: seq<PackedBlob>, id: Id)
    requires key.Lawful() && |nonce| == NONCE_SIZE && |body| == TotalLength(blobs)
    requires forall k :: 0 <= k < |blobs| ==> Storable(blobs[k].handle.tpe)
    requires multiset(EntriesOf(each, id)) == multiset(Located(blobs, id))
    ensures HEADER_SIZE + PackCost(each, id, false) == |Packed(key, nonce, body, blobs)|
    ensures HEADER_SIZE + PackCost(each, id, true) == |Packed(key, nonce, body, blobs)| - |body|
  {
    hide PackCost;
    key.OpenedSealed(nonce, EncodeHeader(blobs));
    PackCostEntries(each, id, false);
    PackCostEntries(each, id, true);
    PackCostReorders(EntriesOf(each, id), Located(blobs, id), id, false);
    PackCostReorders(EntriesOf(each, id), Located(blobs, id), id, true);
    PackCostLocated(blobs, id, false);
    PackCostLocated(blobs, id, true);
  }
}
