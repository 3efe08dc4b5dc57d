/**
 An index: one hash table per blob type, whose records name their pack by its
 position in the index's list of packs.
 */
module Indexes {
  import opened Blobs
  import opened IndexMaps
  import opened PackLists
  import Crypto

  const NUM_BLOB_TYPES: nat := 3

  function TypeIndex(t: BlobType): nat {
    match t
    case InvalidBlob => 0
    case DataBlob => 1
    case TreeBlob => 2
  }

  // ---------------------------------------------------------------- resolving

  ghost predicate Resolvable(log: seq<Record>, packs: seq<Id>) {
    forall k :: 0 <= k < |log| ==> 0 <= log[k].packIndex < |packs|
  }

  function ToPackedBlob(r: Record, t: BlobType, packs: seq<Id>): PackedBlob
    requires 0 <= r.packIndex < |packs|
  {
    PackedBlob(Blob(BlobHandle(r.id, t), r.length, r.offset), packs[r.packIndex])
  }

  ghost function Resolve(log: seq<Record>, t: BlobType, packs: seq<Id>): (pbs: seq<PackedBlob>)
    requires Resolvable(log, packs)
    ensures |pbs| == |log|
    ensures forall k :: 0 <= k < |log| ==> pbs[k] == ToPackedBlob(log[k], t, packs)
  {
    seq(|log|, k requires 0 <= k < |log| => ToPackedBlob(log[k], t, packs))
  }

  lemma ResolvableReorders(a: seq<Record>, b: seq<Record>, packs: seq<Id>)
    requires multiset(a) == multiset(b) && Resolvable(b, packs)
    ensures Resolvable(a, packs)
  {
    forall k | 0 <= k < |a| ensures 0 <= a[k].packIndex < |packs| {
      assert a[k] in multiset(b);
    }
  }

  /** Reordering the records reorders the packed blobs. */
  lemma {:induction false} ResolveReorders(a: seq<Record>, b: seq<Record>, t: BlobType, packs: seq<Id>)
    requires multiset(a) == multiset(b) && Resolvable(a, packs) && Resolvable(b, packs)
    ensures multiset(Resolve(a, t, packs)) == multiset(Resolve(b, t, packs))
  {
    hide Resolve;
    hide ToPackedBlob;
    if a == [] {
      EmptyReorders(a, b);
    } else {
      var p := MatchHead(a, b);
      var rest := b[..p] + b[p + 1..];
      assert Resolvable(rest, packs);
      ResolveReorders(a[1..], rest, t, packs);
      ResolveWithout(b, p, t, packs);
      ResolveHead(a, t, packs);
    }
  }

  lemma EmptyReorders<T>(a: seq<T>, b: seq<T>)
    requires a == [] && multiset(a) == multiset(b)
    ensures b == []
  {
    assert |multiset(b)| == |b|;
  }

  lemma ResolveHead(log: seq<Record>, t: BlobType, packs: seq<Id>)
    requires Resolvable(log, packs) && log != []
    ensures multiset(Resolve(log, t, packs)) ==
            multiset(Resolve(log[1..], t, packs)) + multiset{ToPackedBlob(log[0], t, packs)}
  {
    var pbs := Resolve(log, t, packs);
    assert pbs == [pbs[0]] + Resolve(log[1..], t, packs);
  }

  lemma ResolveWithout(log: seq<Record>, p: nat, t: BlobType, packs: seq<Id>)
    requires Resolvable(log, packs) && p < |log|
    ensures multiset(Resolve(log, t, packs)) ==
            multiset(Resolve(log[..p] + log[p + 1..], t, packs)) + multiset{ToPackedBlob(log[p], t, packs)}
  {
    var pbs := Resolve(log, t, packs);
    assert Resolve(log[..p] + log[p + 1..], t, packs) == pbs[..p] + pbs[p + 1..];
    MultisetWithout(pbs, p);
  }

  // ---------------------------------------------------------------- lookup

  /** The packed blobs with the given handle, in order. */
  ghost function WithHandle(pbs: seq<PackedBlob>, bh: BlobHandle): seq<PackedBlob> {
    if pbs == [] then []
    else
      var rest := WithHandle(pbs[..|pbs| - 1], bh);
      var pb := pbs[|pbs| - 1];
      if pb.blob.handle == bh then rest + [pb] else rest
  }

  /** Selecting records by identifier selects packed blobs by handle. */
  lemma {:induction false} ResolveSelected(log: seq<Record>, t: BlobType, packs: seq<Id>, id: Id)
    requires Resolvable(log, packs)
    ensures Resolvable(WithId(log, id), packs)
    ensures Resolve(WithId(log, id), t, packs) == WithHandle(Resolve(log, t, packs), BlobHandle(id, t))
  {
    if log != [] {
      var last := |log| - 1;
      ResolveSelected(log[..last], t, packs, id);
      var pbs := Resolve(log, t, packs);
      assert Resolve(log[..last], t, packs) == pbs[..last];
      assert WithId(log, id) ==
             if log[last].id == id then WithId(log[..last], id) + [log[last]] else WithId(log[..last], id);
    }
  }

  lemma {:induction false} WithHandleMember(pbs: seq<PackedBlob>, bh: BlobHandle, pb: PackedBlob)
    ensures pb in WithHandle(pbs, bh) <==> pb in pbs && pb.blob.handle == bh
  {
    if pbs != [] {
      WithHandleMember(pbs[..|pbs| - 1], bh, pb);
      assert pbs == pbs[..|pbs| - 1] + [pbs[|pbs| - 1]];
    }
  }

  /** The length of the plaintext of a stored blob, as an unsigned number. */
  function PlaintextLength(length: nat): nat {
    (length - Crypto.EXTENSION) % UINT64_RANGE
  }

  /** The size is that of one of the locations. */
  ghost predicate SizeAmong(size: nat, pbs: multiset<PackedBlob>) {
    exists pb :: pb in pbs && size == PlaintextLength(pb.blob.length)
  }

  // ---------------------------------------------------------------- merging

  /** `base` followed by the members of `more` that are not there yet, each once. */
  ghost function Merged(base: seq<PackedBlob>, more: seq<PackedBlob>): seq<PackedBlob> {
    if more == [] then base
    else
      var m := Merged(base, more[..|more| - 1]);
      var pb := more[|more| - 1];
      if pb in m then m else m + [pb]
  }

  /** Merging keeps what was there and adds every missing blob exactly once. */
  lemma {:induction false} MergedCount(base: seq<PackedBlob>, more: seq<PackedBlob>, pb: PackedBlob)
    ensures multiset(Merged(base, more))[pb] ==
            if pb in base then multiset(base)[pb] else if pb in more then 1 else 0
  {
    if more != [] {
      var init, last := more[..|more| - 1], more[|more| - 1];
      MergedCount(base, init, pb);
      MergedCount(base, init, last);
      assert more == init + [last];
    }
  }

  lemma MergedStep(base: seq<PackedBlob>, more: seq<PackedBlob>, k: nat)
    requires k < |more|
    ensures Merged(base, more[..k + 1]) == Merged(Merged(base, more[..k]), [more[k]])
  {
    assert more[..k + 1][..k] == more[..k] && [more[k]][..0] == [];
  }

  /** `result` is `base` with every blob of `more` that it lacks added exactly once. */
  ghost predicate MergesTo(base: seq<PackedBlob>, more: seq<PackedBlob>, result: seq<PackedBlob>) {
    forall pb :: multiset(result)[pb] == if pb in base then multiset(base)[pb] else if pb in more then 1 else 0
  }

  lemma MergedMergesTo(base: seq<PackedBlob>, visited: seq<PackedBlob>, more: seq<PackedBlob>)
    requires multiset(visited) == multiset(more)
    ensures MergesTo(base, more, Merged(base, visited))
  {
    forall pb ensures multiset(Merged(base, visited))[pb] ==
                      if pb in base then multiset(base)[pb] else if pb in more then 1 else 0
    {
      MergedCount(base, visited, pb);
      assert pb in visited <==> pb in multiset(visited);
    }
  }

  // ---------------------------------------------------------------- packs

  /** The blobs of one type, as packed blobs of the given pack. */
  ghost function OfType(blobs: seq<Blob>, t: BlobType, packId: Id): seq<PackedBlob> {
    if blobs == [] then []
    else
      var rest := OfType(blobs[..|blobs| - 1], t, packId);
      var b := blobs[|blobs| - 1];
      if b.handle.tpe == t then rest + [PackedBlob(b, packId)] else rest
  }

  /** Offsets and lengths fit the table's 32-bit fields. */
  predicate AllFit(blobs: seq<Blob>) {
    forall k :: 0 <= k < |blobs| ==> blobs[k].offset < UINT32_RANGE && blobs[k].length < UINT32_RANGE
  }

  // ---------------------------------------------------------------- the index

  class Index {
    const byType: seq<IndexMap>
    var packs: seq<Id>
    var mixedPacks: set<Id>
    var final: bool
    var ids: seq<Id>
    var supersedes: seq<Id>

    ghost var Repr: set<object>

    ghost predicate Valid()
      reads this, Repr
      ensures Valid() ==> this in Repr
    {
      && this in Repr && |byType| == NUM_BLOB_TYPES
      && (forall i :: 0 <= i < NUM_BLOB_TYPES ==>
            byType[i] in Repr && byType[i].Repr <= Repr && this !in byType[i].Repr)
      && (forall i, j :: 0 <= i < j < NUM_BLOB_TYPES ==> byType[i].Repr !! byType[j].Repr)
      && (forall i :: 0 <= i < NUM_BLOB_TYPES ==> byType[i].Valid() && Resolvable(byType[i].log, packs))
    }

    /** The packed blobs of one type, in the order in which they were stored. */
    ghost function Content(t: BlobType): seq<PackedBlob>
      requires Valid()
      reads this, Repr
    {
      Resolve(byType[TypeIndex(t)].log, t, packs)
    }

    constructor (sum64: Id -> nat)
      ensures Valid() && fresh(Repr)
      ensures forall t :: Content(t) == []
      ensures packs == [] && mixedPacks == {} && !final && ids == [] && supersedes == []
    {
      hide IndexMap.Valid;
      var a := new IndexMap(sum64);
      var b := new IndexMap(sum64);
      var c := new IndexMap(sum64);
      byType := [a, b, c];
      packs, mixedPacks, final, ids, supersedes := [], {}, false, [], [];
      Repr := {this} + a.Repr + b.Repr + c.Repr;
    }

    /** Enters one blob of the pack at position packIndex. */
    method Store(packIndex: nat, blob: Blob)
      requires Valid() && packIndex < |packs|
      requires blob.offset < UINT32_RANGE && blob.length < UINT32_RANGE
      modifies Repr
      ensures Valid() && fresh(Repr - old(Repr))
      ensures forall t :: Content(t) ==
                old(Content(t)) + if t == blob.handle.tpe then [PackedBlob(blob, old(packs)[packIndex])] else []
      ensures packs == old(packs) && mixedPacks == old(mixedPacks) && final == old(final)
      ensures ids == old(ids) && supersedes == old(supersedes)
    {
      hide IndexMap.Valid;
      var m := byType[TypeIndex(blob.handle.tpe)];
      m.Add(blob.handle.id, packIndex, blob.offset, blob.length);
      Repr := Repr + m.Repr;
    }

    /** Enters all blobs of the pack at position packIndex. */
    method StoreAll(packIndex: nat, blobs: seq<Blob>)
      requires Valid() && packIndex < |packs| && AllFit(blobs)
      modifies Repr
      ensures Valid() && fresh(Repr - old(Repr))
      ensures forall t :: Content(t) == old(Content(t)) + OfType(blobs, t, old(packs)[packIndex])
      ensures packs == old(packs) && mixedPacks == old(mixedPacks) && final == old(final)
      ensures ids == old(ids) && supersedes == old(supersedes)
    {
      hide Valid;
      hide Content;
      var k := 0;
      while k < |blobs|
        invariant 0 <= k <= |blobs|
        invariant Valid() && fresh(Repr - old(Repr))
        invariant forall t :: Content(t) == old(Content(t)) + OfType(blobs[..k], t, old(packs)[packIndex])
        invariant packs == old(packs) && mixedPacks == old(mixedPacks) && final == old(final)
        invariant ids == old(ids) && supersedes == old(supersedes)
      {
        assert blobs[..k + 1][..k] == blobs[..k];
        Store(packIndex, blobs[k]);
        k := k + 1;
      }
      assert blobs[..k] == blobs;
    }

    /** Enters all blobs of a new pack. */
    method StorePack(id: Id, blobs: seq<Blob>)
      requires Valid() && !final && AllFit(blobs)
      modifies Repr
      ensures Valid() && fresh(Repr - old(Repr))
      ensures forall t :: Content(t) == old(Content(t)) + OfType(blobs, t, id)
      ensures packs == old(packs) + [id] && mixedPacks == old(mixedPacks) && !final
      ensures ids == old(ids) && supersedes == old(supersedes)
    {
      hide Valid;
      hide Content;
      AppendPacks([id]);
      StoreAll(|packs| - 1, blobs);
    }

    /** Appends everything the index knows about a handle to pbs. */
    method Lookup(bh: BlobHandle, pbs: seq<PackedBlob>) returns (out: seq<PackedBlob>)
      requires Valid()
      ensures pbs <= out
      ensures multiset(out[|pbs|..]) == multiset(WithHandle(Content(bh.tpe), bh))
    {
      hide IndexMap.Valid;
      var m := byType[TypeIndex(bh.tpe)];
      var found := m.ForEachWithId(bh.id);
      ResolveSelected(m.log, bh.tpe, packs, bh.id);
      ResolvableReorders(found, WithId(m.log, bh.id), packs);
      ResolveReorders(found, WithId(m.log, bh.id), bh.tpe, packs);
      out := pbs;
      for k := 0 to |found|
        invariant out == pbs + Resolve(found, bh.tpe, packs)[..k]
      {
        out := out + [ToPackedBlob(found[k], bh.tpe, packs)];
      }
      assert out[|pbs|..] == Resolve(found, bh.tpe, packs);
    }

    /** Whether the index knows a handle. */
    method Has(bh: BlobHandle) returns (has: bool)
      requires Valid()
      ensures has <==> WithHandle(Content(bh.tpe), bh) != []
    {
      hide IndexMap.Valid;
      var m := byType[TypeIndex(bh.tpe)];
      var r := m.Get(bh.id);
      has := r.Some?;
      ResolveSelected(m.log, bh.tpe, packs, bh.id);
      NoneWithId(m.log, bh.id);
    }

    /** The size of a blob, by one of its entries. */
    method LookupSize(bh: BlobHandle) returns (size: Option<nat>)
      requires Valid()
      ensures size.None? <==> WithHandle(Content(bh.tpe), bh) == []
      ensures size.Some? ==> SizeAmong(size.value, multiset(WithHandle(Content(bh.tpe), bh)))
    {
      hide IndexMap.Valid;
      hide PlaintextLength;
      var m := byType[TypeIndex(bh.tpe)];
      var r := m.Get(bh.id);
      ResolveSelected(m.log, bh.tpe, packs, bh.id);
      NoneWithId(m.log, bh.id);
      if r.None? {
        return None;
      }
      ghost var k :| 0 <= k < |m.log| && m.log[k] == r.value;
      ghost var pb := Content(bh.tpe)[k];
      WithHandleMember(Content(bh.tpe), bh, pb);
      assert pb in multiset(WithHandle(Content(bh.tpe), bh));
      size := Some(PlaintextLength(r.value.length));
    }

    /** Whether the table of type t holds an entry for exactly this packed blob. */
    method HasIdenticalEntry(t: BlobType, pb: PackedBlob) returns (found: bool)
      requires Valid() && pb.blob.handle.tpe == t
      ensures found <==> pb in Content(t)
    {
      hide IndexMap.Valid;
      var candidates := Lookup(pb.blob.handle, []);
      WithHandleMember(Content(t), pb.blob.handle, pb);
      assert candidates[0..] == candidates;
      assert pb in candidates <==> pb in multiset(candidates);
      found := false;
      for k := 0 to |candidates|
        invariant found <==> pb in candidates[..k]
      {
        if candidates[k] == pb {
          found := true;
        }
      }
      assert candidates[..|candidates|] == candidates;
    }

    /** Extends the list of packs; the entries still resolve to the packs they did. */
    method AppendPacks(more: seq<Id>)
      requires Valid()
      modifies this`packs
      ensures Valid() && packs == old(packs) + more
      ensures forall t :: Content(t) == old(Content(t))
    {
      hide IndexMap.Valid;
      packs := packs + more;
      assert Valid();
    }

    /** Takes over the entry e2 of idx2 unless it is there already. */
    method MergeEntry(t: BlobType, idx2: Index, r: Record, packlen: nat)
      requires Valid() && idx2.Valid() && Repr !! idx2.Repr
      requires 0 <= r.packIndex < |idx2.packs| && packlen <= |packs| && packs[packlen..] == idx2.packs
      modifies Repr
      ensures Valid() && fresh(Repr - old(Repr))
      ensures Content(t) == Merged(old(Content(t)), [ToPackedBlob(r, t, idx2.packs)])
      ensures forall u :: u != t ==> Content(u) == old(Content(u))
      ensures packs == old(packs) && mixedPacks == old(mixedPacks) && final == old(final)
      ensures ids == old(ids) && supersedes == old(supersedes)
    {
      hide Valid;
      hide Content;
      var pb := ToPackedBlob(r, t, idx2.packs);
      var found := HasIdenticalEntry(t, pb);
      assert Merged(old(Content(t)), [pb]) ==
             if pb in old(Content(t)) then old(Content(t)) else old(Content(t)) + [pb] by {
        assert [pb][..0] == [];
      }
      if !found {
        assert packs[packlen..][r.packIndex] == packs[r.packIndex + packlen];
        Store(r.packIndex + packlen, Blob(BlobHandle(r.id, t), r.length, r.offset));
      }
    }

    /** The entries of type t of an index, in some order. */
    method Entries(t: BlobType) returns (recs: seq<Record>)
      requires Valid()
      ensures Resolvable(recs, packs)
      ensures multiset(Resolve(recs, t, packs)) == multiset(Content(t))
    {
      hide IndexMap.Valid;
      var m := byType[TypeIndex(t)];
      ghost var all;
      recs, all := m.ForEach(r => true);
      ResolvableReorders(recs, m.log, packs);
      ResolveReorders(recs, m.log, t, packs);
    }

    method MarkMixed(id: Id)
      requires Valid()
      modifies this`mixedPacks
      ensures Valid() && forall t :: Content(t) == old(Content(t))
      ensures mixedPacks == old(mixedPacks) + {id}
    {
      hide IndexMap.Valid;
      mixedPacks := mixedPacks + {id};
    }

    /** Completes an index that was read from the file with the given name. */
    method Finish(supersedes: seq<Id>, id: Id)
      requires Valid()
      modifies this`supersedes, this`ids, this`final
      ensures Valid() && forall t :: Content(t) == old(Content(t))
      ensures final && this.supersedes == supersedes && ids == old(ids) + [id]
    {
      hide IndexMap.Valid;
      this.supersedes := supersedes;
      ids := ids + [id];
      final := true;
    }

    /** Closes the index against further additions. */
    method Finalize()
      requires Valid()
      modifies this`final
      ensures Valid() && final && forall t :: Content(t) == old(Content(t))
    {
      hide IndexMap.Valid;
      final := true;
    }

    /** Records the index files that this index replaces; a final index refuses. */
    method AddToSupersedes(more: seq<Id>) returns (ok: bool)
      requires Valid()
      modifies this`supersedes
      ensures Valid() && ok == !final && forall t :: Content(t) == old(Content(t))
      ensures supersedes == if ok then old(supersedes) + more else old(supersedes)
    {
      hide IndexMap.Valid;
      if final {
        return false;
      }
      supersedes := supersedes + more;
      ok := true;
    }

    /** Copies the entries of type t that this index does not have from idx2. */
    method MergeType(t: BlobType, idx2: Index, packlen: nat)
      requires Valid() && idx2.Valid() && Repr !! idx2.Repr
      requires packlen <= |packs| && packs[packlen..] == idx2.packs
      modifies Repr
      ensures Valid() && fresh(Repr - old(Repr))
      ensures MergesTo(old(Content(t)), idx2.Content(t), Content(t))
      ensures forall u :: u != t ==> Content(u) == old(Content(u))
      ensures packs == old(packs) && mixedPacks == old(mixedPacks) && final == old(final)
      ensures ids == old(ids) && supersedes == old(supersedes)
    {
      hide Valid;
      hide Content;
      hide MergesTo;
      var recs := idx2.Entries(t);
      ghost var more := Resolve(recs, t, idx2.packs);
      for k := 0 to |recs|
        invariant Valid() && fresh(Repr - old(Repr)) && Repr !! idx2.Repr && idx2.Valid()
        invariant Content(t) == Merged(old(Content(t)), more[..k])
        invariant forall u :: u != t ==> Content(u) == old(Content(u))
        invariant packs == old(packs) && mixedPacks == old(mixedPacks) && final == old(final)
        invariant ids == old(ids) && supersedes == old(supersedes)
      {
        MergedStep(old(Content(t)), more, k);
        MergeEntry(t, idx2, recs[k], packlen);
      }
      assert more[..|recs|] == more;
      MergedMergesTo(old(Content(t)), more, idx2.Content(t));
    }

    /** Takes over the administrative data of idx2. */
    method MergeLists(idx2: Index)
      requires Valid()
      modifies this`mixedPacks, this`ids, this`supersedes
      ensures Valid() && forall t :: Content(t) == old(Content(t))
      ensures mixedPacks == old(mixedPacks + idx2.mixedPacks)
      ensures ids == old(ids + idx2.ids) && supersedes == old(supersedes + idx2.supersedes)
    {
      hide IndexMap.Valid;
      mixedPacks := mixedPacks + idx2.mixedPacks;
      ids := ids + idx2.ids;
      supersedes := supersedes + idx2.supersedes;
    }

    /** Merges a final index into this one, leaving out exact duplicates. */
    method Merge(idx2: Index) returns (ok: bool)
      requires Valid() && idx2.Valid() && Repr !! idx2.Repr
      modifies Repr
      ensures Valid() && fresh(Repr - old(Repr)) && final == old(final)
      ensures ok == idx2.final
      ensures !ok ==> packs == old(packs) && mixedPacks == old(mixedPacks)
      ensures !ok ==> ids == old(ids) && supersedes == old(supersedes)
      ensures !ok ==> forall t :: Content(t) == old(Content(t))
      ensures ok ==> packs == old(packs) + idx2.packs && mixedPacks == old(mixedPacks) + idx2.mixedPacks
      ensures ok ==> ids == old(ids) + idx2.ids && supersedes == old(supersedes) + idx2.supersedes
      ensures ok ==> forall t :: MergesTo(old(Content(t)), idx2.Content(t), Content(t))
    {
      hide Valid;
      hide Content;
      hide MergesTo;
      if !idx2.final {
        return false;
      }
      var packlen := |packs|;
      AppendPacks(idx2.packs);
      MergeType(InvalidBlob, idx2, packlen);
      MergeType(DataBlob, idx2, packlen);
      MergeType(TreeBlob, idx2, packlen);
      MergeLists(idx2);
      ok := true;
    }

    /** The packs that an enumeration leaves out. */
    ghost function Skipped(blacklist: set<Id>): set<Id>
      reads this
    {
      if final then blacklist else {}
    }

    lemma ContentTyped(t: BlobType, pb: PackedBlob)
      requires Valid() && pb.blob.handle.tpe != t
      ensures multiset(Content(t))[pb] == 0
    {
      assert pb !in Content(t);
    }

    /** Groups the entries of one type by pack. */
    method GroupByPack(t: BlobType, blacklist: set<Id>) returns (byPack: map<Id, seq<Blob>>)
      requires Valid()
      ensures GroupsTo(byPack, multiset(Content(t)), Skipped(blacklist))
      ensures forall id :: id in byPack ==> AllFit(byPack[id])
    {
      hide Valid;
      hide Content;
      hide GroupsTo;
      var recs := Entries(t);
      ghost var pbs := Resolve(recs, t, packs);
      byPack := map[];
      GroupStart(Skipped(blacklist));
      for k := 0 to |recs|
        invariant GroupsTo(byPack, multiset(pbs[..k]), Skipped(blacklist))
        invariant forall id :: id in byPack ==> AllFit(byPack[id])
      {
        var pb := ToPackedBlob(recs[k], t, packs);
        assert pbs[..k + 1] == pbs[..k] + [pb];
        GroupStep(byPack, multiset(pbs[..k]), Skipped(blacklist), pb);
        if !final || pb.packId !in blacklist {
          var sofar := if pb.packId in byPack then byPack[pb.packId] else [];
          byPack := byPack[pb.packId := sofar + [pb.blob]];
        }
      }
      assert pbs[..|recs|] == pbs;
    }

    /** Enumerates the groups of one type, in any order. */
    method EachOfType(t: BlobType, blacklist: set<Id>, sofar: seq<PackBlobs>) returns (out: seq<PackBlobs>)
      requires Valid() && ListFits(sofar)
      ensures forall pb :: Occurrences(out, pb) ==
                Occurrences(sofar, pb) + if pb.packId in Skipped(blacklist) then 0 else multiset(Content(t))[pb]
      ensures ListFits(out)
    {
      hide Valid;
      hide Content;
      var byPack := GroupByPack(t, blacklist);
      out := sofar;
      var left := byPack.Keys;
      while left != {}
        invariant left <= byPack.Keys
        invariant forall pb :: Occurrences(out, pb) ==
                    Occurrences(sofar, pb) + if pb.packId in left then 0 else Grouped(byPack, pb)
        invariant ListFits(out)
        decreases |left|
      {
        var id :| id in left;
        var p := PackBlobs(id, byPack[id]);
        forall pb ensures Occurrences(out + [p], pb) == Occurrences(out, pb) + Listed(p, pb) {
          OccurrencesAppend(out, p, pb);
        }
        out := out + [p];
        left := left - {id};
      }
    }

    /** Enumerates the index pack by pack; a final index leaves out the blacklisted packs. */
    method EachByPack(blacklist: set<Id>) returns (out: seq<PackBlobs>)
      requires Valid()
      ensures forall pb :: Occurrences(out, pb) ==
                if pb.packId in Skipped(blacklist) then 0 else multiset(Content(pb.blob.handle.tpe))[pb]
      ensures ListFits(out)
    {
      hide Valid;
      hide Content;
      var a := EachOfType(InvalidBlob, blacklist, []);
      var b := EachOfType(DataBlob, blacklist, a);
      out := EachOfType(TreeBlob, blacklist, b);
      forall pb ensures Occurrences(out, pb) ==
                  if pb.packId in Skipped(blacklist) then 0 else multiset(Content(pb.blob.handle.tpe))[pb]
      {
        OtherTypes(pb);
      }
    }

    /** Blobs of one type are found in no other table. */
    lemma OtherTypes(pb: PackedBlob)
      requires Valid()
      ensures multiset(Content(pb.blob.handle.tpe))[pb] ==
              multiset(Content(InvalidBlob))[pb] + multiset(Content(DataBlob))[pb] + multiset(Content(TreeBlob))[pb]
    {
      hide Valid;
      hide Content;
      if pb.blob.handle.tpe != InvalidBlob { ContentTyped(InvalidBlob, pb); }
      if pb.blob.handle.tpe != DataBlob { ContentTyped(DataBlob, pb); }
      if pb.blob.handle.tpe != TreeBlob { ContentTyped(TreeBlob, pb); }
    }

    // ---------------------------------------------------------------- index files

    /** Adds the entries of one type to the pack list of an index file. */
    method ListOfType(t: BlobType, sofar: seq<PackBlobs>, positions: map<Id, nat>)
      returns (list: seq<PackBlobs>, positions': map<Id, nat>)
      requires Valid() && Positions(sofar, positions) && ListFits(sofar)
      requires NoNullPack(t)
      ensures Positions(list, positions') && ListFits(list)
      ensures Lists(list, sofar, multiset(Content(t)))
    {
      hide Valid;
      hide Content;
      hide Positions;
      hide ListFits;
      hide Lists;
      var recs := Entries(t);
      ghost var pbs := Resolve(recs, t, packs);
      list, positions' := sofar, positions;
      ListsNothing(sofar);
      for k := 0 to |recs|
        invariant Positions(list, positions') && ListFits(list)
        invariant Lists(list, sofar, multiset(pbs[..k]))
      {
        var pb := ToPackedBlob(recs[k], t, packs);
        assert pbs[..k + 1] == pbs[..k] + [pb];
        ghost var before := list;
        list, positions' := AddBlob(list, positions', pb);
        ListsMore(sofar, before, list, multiset(pbs[..k]), multiset{pb});
      }
      assert pbs[..|recs|] == pbs;
    }

    /** No entry of the type belongs to the null pack; the encoder panics on one. */
    ghost predicate NoNullPack(t: BlobType)
      requires Valid()
      reads this, Repr
    {
      forall pb :: pb in Content(t) ==> pb.packId != NullId()
    }

    /** The pack list of an index file: every entry once, under its pack; every pack once. */
    method GeneratePackList() returns (list: seq<PackBlobs>)
      requires Valid() && forall t :: NoNullPack(t)
      ensures forall pb :: Occurrences(list, pb) == multiset(Content(pb.blob.handle.tpe))[pb]
      ensures forall i, j :: 0 <= i < j < |list| ==> list[i].id != list[j].id
      ensures ListFits(list)
    {
      hide Valid;
      hide Content;
      hide NoNullPack;
      var a, ma := ListOfType(InvalidBlob, [], map[]);
      var b, mb := ListOfType(DataBlob, a, ma);
      ghost var mc;
      list, mc := ListOfType(TreeBlob, b, mb);
      forall pb ensures Occurrences(list, pb) == multiset(Content(pb.blob.handle.tpe))[pb] {
        OtherTypes(pb);
      }
    }

    /** The file contents of the index; there is no encoding for blobs of invalid type. */
    method Encode() returns (r: Option<JsonIndex>)
      requires Valid() && forall t :: NoNullPack(t)
      ensures r.None? <==> Content(InvalidBlob) != []
      ensures r.Some? ==> r.value.supersedes == supersedes && ListFits(r.value.packs)
      ensures r.Some? ==> forall pb :: Occurrences(r.value.packs, pb) == multiset(Content(pb.blob.handle.tpe))[pb]
      ensures r.Some? ==> forall i, j :: 0 <= i < j < |r.value.packs| ==> r.value.packs[i].id != r.value.packs[j].id
    {
      hide Valid;
      hide Content;
      var list := GeneratePackList();
      var invalid := Entries(InvalidBlob);
      EmptyBag(Resolve(invalid, InvalidBlob, packs), Content(InvalidBlob));
      if invalid == [] {
        r := Some(JsonIndex(supersedes, list));
      } else {
        r := None;
      }
    }
  }

  lemma FitsExtend(blobs: seq<Blob>, b: Blob)
    requires b.offset < UINT32_RANGE && b.length < UINT32_RANGE
    ensures AllFit([])
    ensures AllFit(blobs) ==> AllFit(blobs + [b])
  {
  }

  lemma EmptyBag(a: seq<PackedBlob>, b: seq<PackedBlob>)
    requires multiset(a) == multiset(b)
    ensures a == [] <==> b == []
  {
    assert |multiset(a)| == |a| && |multiset(b)| == |b|;
  }

  /** The contents of an index file. */
  datatype JsonIndex = JsonIndex(supersedes: seq<Id>, packs: seq<PackBlobs>)

  ghost predicate ListFits(list: seq<PackBlobs>) {
    forall i :: 0 <= i < |list| ==> AllFit(list[i].blobs)
  }

  /** `list` holds what `sofar` holds and the packed blobs `pbs`. */
  ghost predicate Lists(list: seq<PackBlobs>, sofar: seq<PackBlobs>, pbs: multiset<PackedBlob>) {
    forall pb :: Occurrences(list, pb) == Occurrences(sofar, pb) + pbs[pb]
  }

  lemma ListsNothing(sofar: seq<PackBlobs>)
    ensures Lists(sofar, sofar, multiset{})
  {
  }

  lemma ListsMore(a: seq<PackBlobs>, b: seq<PackBlobs>, c: seq<PackBlobs>, m: multiset<PackedBlob>,
                  n: multiset<PackedBlob>)
    requires Lists(b, a, m) && Lists(c, b, n)
    ensures Lists(c, a, m + n)
  {
  }

  /** The map from packs to their positions in a pack list without repetition. */
  ghost predicate Positions(list: seq<PackBlobs>, positions: map<Id, nat>) {
    && (forall id :: id in positions ==> positions[id] < |list| && list[positions[id]].id == id)
    && (forall i :: 0 <= i < |list| ==> list[i].id in positions && positions[list[i].id] == i)
  }

  /** Lists one packed blob, under a new pack if necessary. */
  method AddBlob(list: seq<PackBlobs>, positions: map<Id, nat>, pb: PackedBlob)
    returns (list': seq<PackBlobs>, positions': map<Id, nat>)
    requires Positions(list, positions) && ListFits(list)
    requires pb.blob.offset < UINT32_RANGE && pb.blob.length < UINT32_RANGE
    ensures Positions(list', positions') && ListFits(list')
    ensures Lists(list', list, multiset{pb})
  {
    hide AllFit;
    FitsExtend([], pb.blob);
    list', positions' := list, positions;
    if pb.packId !in positions' {
      forall q ensures Occurrences(list + [PackBlobs(pb.packId, [])], q) == Occurrences(list, q) {
        OccurrencesAppend(list, PackBlobs(pb.packId, []), q);
      }
      positions' := positions'[pb.packId := |list'|];
      list' := list' + [PackBlobs(pb.packId, [])];
    }
    var i := positions'[pb.packId];
    forall q ensures Occurrences(list'[i := PackBlobs(pb.packId, list'[i].blobs + [pb.blob])], q)
                  == Occurrences(list', q) + if q == pb then 1 else 0
    {
      OccurrencesExtend(list', i, pb.blob, q);
    }
    FitsExtend(list'[i].blobs, pb.blob);
    list' := list'[i := PackBlobs(pb.packId, list'[i].blobs + [pb.blob])];
  }

  /** How often a packed blob occurs in a grouping. */
  ghost function Grouped(byPack: map<Id, seq<Blob>>, pb: PackedBlob): nat {
    if pb.packId in byPack then multiset(byPack[pb.packId])[pb.blob] else 0
  }

  /** The grouping holds the given packed blobs, except those of skipped packs. */
  ghost predicate GroupsTo(byPack: map<Id, seq<Blob>>, pbs: multiset<PackedBlob>, skipped: set<Id>) {
    forall pb :: Grouped(byPack, pb) == if pb.packId in skipped then 0 else pbs[pb]
  }

  lemma GroupStart(skipped: set<Id>)
    ensures GroupsTo(map[], multiset{}, skipped)
  {
  }

  lemma GroupStep(byPack: map<Id, seq<Blob>>, pbs: multiset<PackedBlob>, skipped: set<Id>, pb: PackedBlob)
    requires GroupsTo(byPack, pbs, skipped)
    ensures GroupsTo(if pb.packId in skipped then byPack
                     else byPack[pb.packId := (if pb.packId in byPack then byPack[pb.packId] else []) + [pb.blob]],
                     pbs + multiset{pb}, skipped)
  {
    assert forall q: PackedBlob :: (pbs + multiset{pb})[q] == pbs[q] + if q == pb then 1 else 0;
  }

  // ---------------------------------------------------------------- decoding

  predicate HoldsType(blobs: seq<Blob>, t: BlobType) {
    exists k :: 0 <= k < |blobs| && blobs[k].handle.tpe == t
  }

  /** The packs of a list that hold both data and tree blobs. */
  ghost function Mixed(ps: seq<PackBlobs>): set<Id> {
    set p | p in ps && HoldsType(p.blobs, DataBlob) && HoldsType(p.blobs, TreeBlob) :: p.id
  }

  lemma {:induction false} OfTypeCount(blobs: seq<Blob>, id: Id, pb: PackedBlob)
    ensures multiset(OfType(blobs, pb.blob.handle.tpe, id))[pb] == Listed(PackBlobs(id, blobs), pb)
  {
    if blobs != [] {
      OfTypeCount(blobs[..|blobs| - 1], id, pb);
      assert blobs == blobs[..|blobs| - 1] + [blobs[|blobs| - 1]];
    }
  }

  /** The index holds exactly the packed blobs of a pack list. */
  ghost predicate HoldsExactly(idx: Index, ps: seq<PackBlobs>)
    requires idx.Valid()
    reads idx, idx.Repr
  {
    forall pb: PackedBlob :: multiset(idx.Content(pb.blob.handle.tpe))[pb] == Occurrences(ps, pb)
  }

  /** Enters one more pack of an index file. */
  method DecodePack(idx: Index, ghost sofar: seq<PackBlobs>, p: PackBlobs)
    requires idx.Valid() && AllFit(p.blobs) && HoldsExactly(idx, sofar)
    modifies idx.Repr
    ensures idx.Valid() && fresh(idx.Repr - old(idx.Repr)) && HoldsExactly(idx, sofar + [p])
    ensures idx.mixedPacks == old(idx.mixedPacks) + Mixed([p])
    ensures idx.final == old(idx.final) && idx.ids == old(idx.ids) && idx.supersedes == old(idx.supersedes)
  {
    hide Index.Valid;
    hide Index.Content;
    idx.AppendPacks([p.id]);
    idx.StoreAll(|idx.packs| - 1, p.blobs);
    forall pb: PackedBlob ensures multiset(idx.Content(pb.blob.handle.tpe))[pb] == Occurrences(sofar + [p], pb) {
      OfTypeCount(p.blobs, p.id, pb);
      OccurrencesAppend(sofar, p, pb);
    }
    if HoldsType(p.blobs, DataBlob) && HoldsType(p.blobs, TreeBlob) {
      idx.MarkMixed(p.id);
    }
    assert Mixed([p]) == if HoldsType(p.blobs, DataBlob) && HoldsType(p.blobs, TreeBlob) then {p.id} else {} by {
      assert p in [p];
    }
  }

  /** The index described by a file; the inverse of Encode up to the order of entries. */
  method Decode(json: JsonIndex, id: Id, sum64: Id -> nat) returns (idx: Index)
    requires ListFits(json.packs)
    ensures idx.Valid() && fresh(idx.Repr) && HoldsExactly(idx, json.packs)
    ensures idx.mixedPacks == Mixed(json.packs)
    ensures idx.final && idx.ids == [id] && idx.supersedes == json.supersedes
  {
    hide Index.Valid;
    hide Index.Content;
    hide AllFit;
    idx := new Index(sum64);
    for k := 0 to |json.packs|
      invariant idx.Valid() && fresh(idx.Repr) && HoldsExactly(idx, json.packs[..k])
      invariant idx.mixedPacks == Mixed(json.packs[..k])
      invariant idx.ids == []
    {
      assert json.packs[..k + 1] == json.packs[..k] + [json.packs[k]];
      assert Mixed(json.packs[..k + 1]) == Mixed(json.packs[..k]) + Mixed([json.packs[k]]);
      DecodePack(idx, json.packs[..k], json.packs[k]);
    }
    assert json.packs[..|json.packs|] == json.packs;
    idx.Finish(json.supersedes, id);
  }
}
