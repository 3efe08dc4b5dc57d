/** Values shared by the whole model: identifiers, blob handles and blob locations. */
module Blobs {

  const BYTE_RANGE: int := 256

  type byte = x: int | 0 <= x < BYTE_RANGE

  const ID_SIZE: nat := 32

  /** A SHA-256 value: exactly 32 bytes. */
  type Id = s: seq<byte> | |s| == ID_SIZE witness seq(ID_SIZE, _ => 0)

  /** The identifier that consists of null bytes only. */
  function NullId(): Id {
    seq(ID_SIZE, _ => 0)
  }

  const UINT32_RANGE: int := 0x1_0000_0000
  const UINT64_RANGE: int := 0x1_0000_0000_0000_0000

  type uint32 = x: int | 0 <= x < UINT32_RANGE

  datatype BlobType = InvalidBlob | DataBlob | TreeBlob

  datatype BlobHandle = BlobHandle(id: Id, tpe: BlobType)

  /** A blob and the range it occupies inside some pack. */
  datatype Blob = Blob(handle: BlobHandle, length: nat, offset: nat)

  datatype PackedBlob = PackedBlob(blob: Blob, packId: Id)

  /** A location that an index file can describe. */
  predicate Describable(pb: PackedBlob) {
    pb.packId != NullId() && !pb.blob.handle.tpe.InvalidBlob?
  }

  datatype Option<+T> = None | Some(value: T)

  /** The number of times a condition holds: once or not at all. */
  function One(b: bool): nat {
    if b then 1 else 0
  }

  /** Taking one element out of a sequence takes it out of the multiset. */
  lemma MultisetWithout<T>(s: seq<T>, p: nat)
    requires p < |s|
    ensures multiset(s) == multiset(s[..p] + s[p + 1..]) + multiset{s[p]}
  {
    assert s == s[..p] + [s[p]] + s[p + 1..];
  }

  lemma MultisetPush<T>(s: seq<T>, x: T)
    ensures multiset(s + [x]) == multiset(s) + multiset{x}
  {
  }

  lemma MultisetInsert<T>(s: seq<T>, i: nat, x: T)
    requires i <= |s|
    ensures multiset(s[..i] + [x] + s[i..]) == multiset(s) + multiset{x}
  {
    var t := s[..i] + [x] + s[i..];
    MultisetWithout(t, i);
    assert t[..i] + t[i + 1..] == s;
  }

  /** The head of a sequence has a counterpart in every reordering of it. */
  lemma MatchHead<T>(a: seq<T>, b: seq<T>) returns (p: nat)
    requires a != [] && multiset(a) == multiset(b)
    ensures p < |b| && b[p] == a[0]
    ensures multiset(a[1..]) == multiset(b[..p] + b[p + 1..])
  {
    assert a[0] in multiset(b);
    p :| 0 <= p < |b| && b[p] == a[0];
    MultisetWithout(b, p);
    assert a == [a[0]] + a[1..];
    assert multiset(a[1..]) == multiset(a) - multiset{a[0]};
  }

  lemma SliceOfSlice<T>(s: seq<T>, a: nat, b: nat, i: nat, j: nat)
    requires a <= b <= |s| && i <= j <= b - a
    ensures s[a..b][i..j] == s[a + i..a + j]
  {
    forall k | 0 <= k < j - i ensures s[a..b][i..j][k] == s[a + i..a + j][k] {
      assert s[a..b][i..j][k] == s[a..b][i + k] == s[a + i + k];
    }
  }
}
