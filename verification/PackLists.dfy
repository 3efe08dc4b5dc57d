/**
 Blobs grouped by the pack that holds them: the shape in which an index is
 enumerated pack by pack and in which it is written to an index file.
 */
module PackLists {
  import opened Blobs

  /** One pack and some of the blobs stored in it. */
  datatype PackBlobs = PackBlobs(id: Id, blobs: seq<Blob>)

  /** How often a packed blob is listed under a pack. */
  function Listed(p: PackBlobs, pb: PackedBlob): nat {
    if pb.packId == p.id then multiset(p.blobs)[pb.blob] else 0
  }

  /** How often a packed blob is listed in all. */
  function Occurrences(ps: seq<PackBlobs>, pb: PackedBlob): nat {
    if ps == [] then 0 else Occurrences(ps[..|ps| - 1], pb) + Listed(ps[|ps| - 1], pb)
  }

  /** Adding a blob to the i-th pack adds one occurrence of it, and nothing else. */
  lemma {:induction false} OccurrencesExtend(ps: seq<PackBlobs>, i: nat, b: Blob, pb: PackedBlob)
    requires i < |ps|
    ensures Occurrences(ps[i := PackBlobs(ps[i].id, ps[i].blobs + [b])], pb)
         == Occurrences(ps, pb) + if pb == PackedBlob(b, ps[i].id) then 1 else 0
  {
    var last := |ps| - 1;
    var qs := ps[i := PackBlobs(ps[i].id, ps[i].blobs + [b])];
    if i == last {
      assert qs[..last] == ps[..last];
    } else {
      OccurrencesExtend(ps[..last], i, b, pb);
      assert qs[..last] == ps[..last][i := PackBlobs(ps[i].id, ps[i].blobs + [b])];
    }
  }

  lemma OccurrencesAppend(ps: seq<PackBlobs>, p: PackBlobs, pb: PackedBlob)
    ensures Occurrences(ps + [p], pb) == Occurrences(ps, pb) + Listed(p, pb)
  {
    assert (ps + [p])[..|ps|] == ps;
  }
}
