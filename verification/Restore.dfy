/**
 Restoring files: every file is a list of blobs.  The restorer finds out which
 packs hold them and where in the files they go, downloads each pack once, and
 writes every blob to all places that need it.
 */
module Restores {
  import opened Blobs
  import opened Crypto

  const LARGE_FILE_BLOB_COUNT: nat := 25

  type Lookup = Id -> seq<PackedBlob>

  datatype FileInfo = FileInfo(content: seq<Id>, size: nat)

  /** An occurrence of a blob: the pack it is read from and its offset in the file. */
  datatype Place = Place(packId: Id, blob: Blob, offset: int)

  /** A blob of a large file, by identifier, and its offset in the file. */
  datatype FileBlob = FileBlob(id: Id, offset: int)

  /** What is remembered of a file: all its blobs, or, for a large file, where the blobs of each pack go. */
  datatype FilePlan = Small(content: seq<Id>) | Large(packsMap: map<Id, seq<FileBlob>>)

  // ---------------------------------------------------------------- places

  ghost predicate AllKnown(idx: Lookup, content: seq<Id>) {
    forall k :: 0 <= k < |content| ==> idx(content[k]) != []
  }

  /** The plaintext length of some blobs, according to the index. */
  ghost function End(idx: Lookup, content: seq<Id>): int
    requires AllKnown(idx, content)
  {
    if content == [] then 0
    else End(idx, content[..|content| - 1]) + idx(content[|content| - 1])[0].blob.length - EXTENSION
  }

  /** Where the blobs of a file come from and go to: the offsets are the sums of the lengths before. */
  ghost function Places(idx: Lookup, content: seq<Id>): seq<Place>
    requires AllKnown(idx, content)
  {
    if content == [] then []
    else
      var init, pb := content[..|content| - 1], idx(content[|content| - 1])[0];
      Places(idx, init) + [Place(pb.packId, pb.blob, End(idx, init))]
  }

  /** The places that are served from one pack. */
  ghost function In(places: seq<Place>, packId: Id): seq<Place> {
    if places == [] then []
    else
      var rest, pl := In(places[..|places| - 1], packId), places[|places| - 1];
      if pl.packId == packId then rest + [pl] else rest
  }

  lemma PlacesStep(idx: Lookup, content: seq<Id>, k: nat, packId: Id)
    requires k < |content| && AllKnown(idx, content)
    ensures var pb := idx(content[k])[0];
            && End(idx, content[..k + 1]) == End(idx, content[..k]) + pb.blob.length - EXTENSION
            && Places(idx, content[..k + 1]) ==
               Places(idx, content[..k]) + [Place(pb.packId, pb.blob, End(idx, content[..k]))]
            && In(Places(idx, content[..k + 1]), packId) ==
               In(Places(idx, content[..k]), packId)
               + (if pb.packId == packId then [Place(packId, pb.blob, End(idx, content[..k]))] else [])
  {
    assert content[..k + 1][..k] == content[..k];
    var all := Places(idx, content[..k + 1]);
    assert all[..|all| - 1] == Places(idx, content[..k]);
  }

  ghost predicate Uses(idx: Lookup, content: seq<Id>, packId: Id) {
    exists k :: 0 <= k < |content| && idx(content[k]) != [] && idx(content[k])[0].packId == packId
  }

  // ---------------------------------------------------------------- planning

  function Get<T>(m: map<Id, seq<T>>, id: Id): seq<T> {
    if id in m then m[id] else []
  }

  ghost function FileBlobs(places: seq<Place>): (r: seq<FileBlob>)
    ensures |r| == |places|
    ensures forall k :: 0 <= k < |r| ==> r[k] == FileBlob(places[k].blob.handle.id, places[k].offset)
  {
    seq(|places|, k requires 0 <= k < |places| => FileBlob(places[k].blob.handle.id, places[k].offset))
  }

  const MAX_INT64: int := 0x7fff_ffff_ffff_ffff

  /** The index answers with blobs that have the identifier asked for, and lie within its range. */
  ghost predicate IndexOk(idx: Lookup) {
    forall id, k :: 0 <= k < |idx(id)| ==> idx(id)[k].blob.handle.id == id && idx(id)[k].blob.offset <= MAX_INT64
  }

  ghost predicate Maps(idx: Lookup, content: seq<Id>, packsMap: map<Id, seq<FileBlob>>)
    requires AllKnown(idx, content)
  {
    forall packId :: Get(packsMap, packId) == FileBlobs(In(Places(idx, content), packId))
  }

  lemma MapsStep(idx: Lookup, content: seq<Id>, k: nat, packsMap: map<Id, seq<FileBlob>>,
                 packsMap1: map<Id, seq<FileBlob>>)
    requires k < |content| && AllKnown(idx, content) && IndexOk(idx) && Maps(idx, content[..k], packsMap)
    requires var packId := idx(content[k])[0].packId;
             packsMap1 == packsMap[packId := Get(packsMap, packId) + [FileBlob(content[k], End(idx, content[..k]))]]
    ensures Maps(idx, content[..k + 1], packsMap1)
  {
    hide Places;
    hide In;
    hide End;
    forall packId ensures Get(packsMap1, packId) == FileBlobs(In(Places(idx, content[..k + 1]), packId)) {
      PlacesStep(idx, content, k, packId);
    }
  }

  ghost predicate UsedBy(idx: Lookup, files: seq<FileInfo>, f: nat, packId: Id) {
    f < |files| && Uses(idx, files[f].content, packId)
  }

  /** The packs that some files use, each with the files that use it. */
  ghost predicate Registers(idx: Lookup, files: seq<FileInfo>, packs: map<Id, set<nat>>) {
    && (forall packId :: packId in packs ==> packs[packId] != {})
    && (forall packId, f :: Lists(packs, packId, f) <==> UsedBy(idx, files, f, packId))
  }

  ghost predicate Lists(packs: map<Id, set<nat>>, packId: Id, f: nat) {
    packId in packs && f in packs[packId]
  }

  /** A file of which the first k blobs have been looked at. */
  ghost function Partly(files: seq<FileInfo>, f: nat, k: nat): seq<FileInfo>
    requires f < |files| && k <= |files[f].content|
  {
    files[..f] + [FileInfo(files[f].content[..k], files[f].size)]
  }

  lemma PartlyStep(idx: Lookup, files: seq<FileInfo>, f: nat, k: nat, g: nat, packId: Id)
    requires f < |files| && k < |files[f].content| && idx(files[f].content[k]) != []
    ensures UsedBy(idx, Partly(files, f, k + 1), g, packId) <==>
            UsedBy(idx, Partly(files, f, k), g, packId) || (g == f && packId == idx(files[f].content[k])[0].packId)
  {
    if g == f {
      var content := files[f].content;
      assert content[..k + 1] == content[..k] + [content[k]];
      if Uses(idx, content[..k], packId) {
        var j :| 0 <= j < k && idx(content[..k][j]) != [] && idx(content[..k][j])[0].packId == packId;
        assert content[..k + 1][j] == content[..k][j];
      }
      if packId == idx(content[k])[0].packId {
        assert content[..k + 1][k] == content[k];
      }
      if Uses(idx, content[..k + 1], packId) {
        var j :| 0 <= j < k + 1 && idx(content[..k + 1][j]) != [] && idx(content[..k + 1][j])[0].packId == packId;
        assert j < k ==> content[..k][j] == content[..k + 1][j];
      }
    }
  }

  lemma PartlyEnds(files: seq<FileInfo>, f: nat)
    requires f < |files|
    ensures Partly(files, f, |files[f].content|) == files[..f + 1]
  {
    assert files[f].content[..|files[f].content|] == files[f].content;
  }

  lemma PartlyStarts(idx: Lookup, files: seq<FileInfo>, f: nat, packs: map<Id, set<nat>>)
    requires f < |files| && Registers(idx, files[..f], packs)
    ensures Registers(idx, Partly(files, f, 0), packs)
  {
    hide Uses;
    forall packId ensures !Uses(idx, files[f].content[..0], packId) {
      UsesNothing(idx, files[f].content, packId);
    }
    assert forall packId, g :: UsedBy(idx, Partly(files, f, 0), g, packId) <==> UsedBy(idx, files[..f], g, packId);
  }

  lemma UsesNothing(idx: Lookup, content: seq<Id>, packId: Id)
    ensures !Uses(idx, content[..0], packId)
  {
  }

  lemma RegistersStep(idx: Lookup, files: seq<FileInfo>, f: nat, k: nat, packs: map<Id, set<nat>>,
                      packs1: map<Id, set<nat>>)
    requires f < |files| && k < |files[f].content| && idx(files[f].content[k]) != []
    requires Registers(idx, Partly(files, f, k), packs)
    requires var packId := idx(files[f].content[k])[0].packId;
             packs1 == packs[packId := (if packId in packs then packs[packId] else {}) + {f}]
    ensures Registers(idx, Partly(files, f, k + 1), packs1)
  {
    hide UsedBy;
    hide Partly;
    var p := idx(files[f].content[k])[0].packId;
    forall packId, g ensures Lists(packs1, packId, g) <==> UsedBy(idx, Partly(files, f, k + 1), g, packId) {
      PartlyStep(idx, files, f, k, g, packId);
      assert Lists(packs1, packId, g) <==> Lists(packs, packId, g) || (packId == p && g == f);
    }
    forall packId | packId in packs1 ensures packs1[packId] != {} {
      assert packId == p ==> f in packs1[packId];
    }
  }

  /** A list without repetitions of the given identifiers. */
  ghost predicate Enumerates(order: seq<Id>, ids: set<Id>) {
    && (forall i, j :: 0 <= i < j < |order| ==> order[i] != order[j])
    && (forall id :: id in order <==> id in ids)
  }

  ghost predicate PlanOk(idx: Lookup, content: seq<Id>, plan: FilePlan) {
    && AllKnown(idx, content)
    && plan.Large? == (|content| > LARGE_FILE_BLOB_COUNT)
    && (plan.Small? ==> plan.content == content)
    && (plan.Large? ==> Maps(idx, content, plan.packsMap))
  }

  /** Plans one file, and registers its packs. */
  method PlanFile(idx: Lookup, ghost files: seq<FileInfo>, f: nat, content: seq<Id>, packs: map<Id, set<nat>>,
                  packOrder: seq<Id>)
    returns (ok: bool, plan: FilePlan, packs1: map<Id, set<nat>>, packOrder1: seq<Id>)
    requires IndexOk(idx) && f < |files| && files[f].content == content
    requires Registers(idx, files[..f], packs) && Enumerates(packOrder, packs.Keys)
    ensures ok <==> AllKnown(idx, content)
    ensures ok ==>
              && PlanOk(idx, content, plan) && Registers(idx, files[..f + 1], packs1)
              && Enumerates(packOrder1, packs1.Keys)
  {
    hide Registers;
    hide Maps;
    hide End;
    hide Partly;
    var largeFile := |content| > LARGE_FILE_BLOB_COUNT;
    var packsMap: map<Id, seq<FileBlob>> := map[];
    packs1, packOrder1, plan := packs, packOrder, Small(content);
    var fileOffset := 0;
    PartlyStarts(idx, files, f, packs);
    MapsStart(idx, content);
    for k := 0 to |content|
      invariant AllKnown(idx, content[..k])
      invariant Registers(idx, Partly(files, f, k), packs1) && Enumerates(packOrder1, packs1.Keys)
      invariant largeFile ==> Maps(idx, content[..k], packsMap) && fileOffset == End(idx, content[..k])
    {
      var found := idx(content[k]);
      if |found| == 0 {
        return false, plan, packs1, packOrder1;
      }
      assert content[..k + 1] == content[..k] + [content[k]];
      var packId, blob := found[0].packId, found[0].blob;
      if largeFile {
        ghost var before := packsMap;
        packsMap := packsMap[packId := Get(packsMap, packId) + [FileBlob(blob.handle.id, fileOffset)]];
        LargeStep(idx, content, k, before, packsMap);
        fileOffset := fileOffset + blob.length - EXTENSION;
      }
      RegistersStep(idx, files, f, k, packs1,
                    packs1[packId := (if packId in packs1 then packs1[packId] else {}) + {f}]);
      if packId !in packs1 {
        packOrder1 := packOrder1 + [packId];
      }
      packs1 := packs1[packId := (if packId in packs1 then packs1[packId] else {}) + {f}];
    }
    assert content[..|content|] == content;
    PartlyEnds(files, f);
    ok := true;
    if largeFile {
      plan := Large(packsMap);
    }
  }

  lemma MapsStart(idx: Lookup, content: seq<Id>)
    ensures AllKnown(idx, content[..0]) && Maps(idx, content[..0], map[]) && End(idx, content[..0]) == 0
  {
  }

  lemma LargeStep(idx: Lookup, content: seq<Id>, k: nat, packsMap: map<Id, seq<FileBlob>>,
                  packsMap1: map<Id, seq<FileBlob>>)
    requires k < |content| && AllKnown(idx, content[..k + 1]) && IndexOk(idx)
    requires AllKnown(idx, content[..k]) && Maps(idx, content[..k], packsMap) && idx(content[k]) != []
    requires var pb := idx(content[k])[0];
             packsMap1 == packsMap[pb.packId := Get(packsMap, pb.packId)
                                                + [FileBlob(pb.blob.handle.id, End(idx, content[..k]))]]
    ensures Maps(idx, content[..k + 1], packsMap1)
    ensures End(idx, content[..k + 1]) == End(idx, content[..k]) + idx(content[k])[0].blob.length - EXTENSION
  {
    hide Maps;
    hide End;
    hide Places;
    var prefix := content[..k + 1];
    assert prefix[..k] == content[..k] && prefix[k] == content[k] && prefix[..k + 1] == prefix;
    PlacesStep(idx, prefix, k, prefix[k]);
    MapsStep(idx, prefix, k, packsMap, packsMap1);
  }

  /** Plans all files; fails exactly if the index does not know some blob. */
  method PlanFiles(idx: Lookup, files: seq<FileInfo>)
    returns (ok: bool, plans: seq<FilePlan>, packs: map<Id, set<nat>>, packOrder: seq<Id>)
    requires IndexOk(idx)
    ensures ok <==> forall f :: 0 <= f < |files| ==> AllKnown(idx, files[f].content)
    ensures ok ==> |plans| == |files| && forall f :: 0 <= f < |files| ==> PlanOk(idx, files[f].content, plans[f])
    ensures ok ==> Registers(idx, files, packs) && Enumerates(packOrder, packs.Keys)
  {
    hide PlanOk;
    hide AllKnown;
    plans, packs, packOrder := [], map[], [];
    for f := 0 to |files|
      invariant |plans| == f && forall g :: 0 <= g < f ==> PlanOk(idx, files[g].content, plans[g])
      invariant forall g :: 0 <= g < f ==> AllKnown(idx, files[g].content)
      invariant Registers(idx, files[..f], packs) && Enumerates(packOrder, packs.Keys)
    {
      var known, plan, packs1, packOrder1 := PlanFile(idx, files, f, files[f].content, packs, packOrder);
      if !known {
        return false, plans, packs, packOrder;
      }
      plans, packs, packOrder := plans + [plan], packs1, packOrder1;
    }
    assert files[..|files|] == files;
    ok := true;
  }

  // ---------------------------------------------------------------- the blobs of one pack

  /** A place names the first location that the index has for its blob. */
  lemma {:induction false} PlaceIsFirst(idx: Lookup, content: seq<Id>, pl: Place)
    requires AllKnown(idx, content) && IndexOk(idx) && pl in Places(idx, content)
    ensures var id := pl.blob.handle.id;
            id in content && idx(id) != [] && idx(id)[0] == PackedBlob(pl.blob, pl.packId)
  {
    var init, last := content[..|content| - 1], content[|content| - 1];
    if pl in Places(idx, init) {
      PlaceIsFirst(idx, init, pl);
    } else {
      assert pl.blob.handle.id == last;
    }
  }

  lemma {:induction false} InMember(places: seq<Place>, packId: Id, pl: Place)
    ensures pl in In(places, packId) <==> pl in places && pl.packId == packId
  {
    if places != [] {
      InMember(places[..|places| - 1], packId, pl);
      assert places == places[..|places| - 1] + [places[|places| - 1]];
    }
  }

  /** The first location in the given pack. */
  method FirstIn(found: seq<PackedBlob>, packId: Id) returns (i: nat)
    ensures i <= |found| && forall j :: 0 <= j < i ==> found[j].packId != packId
    ensures i < |found| ==> found[i].packId == packId
  {
    i := 0;
    while i < |found| && found[i].packId != packId
      invariant i <= |found| && forall j :: 0 <= j < i ==> found[j].packId != packId
    {
      i := i + 1;
    }
  }

  /** Where the blobs of one pack go in a file; large and small files are planned alike. */
  method PlacesIn(idx: Lookup, ghost content: seq<Id>, plan: FilePlan, packId: Id) returns (list: seq<Place>)
    requires IndexOk(idx) && PlanOk(idx, content, plan)
    ensures list == In(Places(idx, content), packId)
  {
    hide Places;
    hide In;
    hide End;
    list := [];
    match plan {
      case Small(ids) =>
        var fileOffset := 0;
        PlacesStart(idx, ids, packId);
        for k := 0 to |ids|
          invariant list == In(Places(idx, ids[..k]), packId) && fileOffset == End(idx, ids[..k])
        {
          PlacesStep(idx, ids, k, packId);
          var pb := idx(ids[k])[0];
          if pb.packId == packId {
            list := list + [Place(packId, pb.blob, fileOffset)];
          }
          fileOffset := fileOffset + pb.blob.length - EXTENSION;
        }
        assert ids[..|ids|] == ids;
      case Large(packsMap) =>
        var fileBlobs := Get(packsMap, packId);
        ghost var places := In(Places(idx, content), packId);
        for j := 0 to |fileBlobs|
          invariant list == places[..j]
        {
          InMember(Places(idx, content), packId, places[j]);
          PlaceIsFirst(idx, content, places[j]);
          var found := idx(fileBlobs[j].id);
          var i := FirstIn(found, packId);
          list := list + [Place(packId, found[i].blob, fileBlobs[j].offset)];
        }
    }
  }

  lemma PlacesStart(idx: Lookup, content: seq<Id>, packId: Id)
    ensures In(Places(idx, content[..0]), packId) == [] && End(idx, content[..0]) == 0
  {
  }

  /** What is to be read from a pack: the blob's range there, and its offsets in the files. */
  datatype BlobInfo = BlobInfo(offset: nat, length: nat, files: map<nat, seq<int>>)

  function OffsetsFor(files: map<nat, seq<int>>, f: nat): seq<int> {
    if f in files then files[f] else []
  }

  ghost function OffsetsOf(places: seq<Place>, id: Id): seq<int> {
    if places == [] then []
    else
      var rest, pl := OffsetsOf(places[..|places| - 1], id), places[|places| - 1];
      if pl.blob.handle.id == id then rest + [pl.offset] else rest
  }

  function AddBlob(blobs: map<Id, BlobInfo>, f: nat, blob: Blob, fileOffset: int): map<Id, BlobInfo> {
    var id := blob.handle.id;
    var info := if id in blobs then blobs[id] else BlobInfo(blob.offset, blob.length, map[]);
    blobs[id := info.(files := info.files[f := OffsetsFor(info.files, f) + [fileOffset]])]
  }

  ghost predicate Mentions(places: seq<Place>, id: Id) {
    exists k :: 0 <= k < |places| && places[k].blob.handle.id == id
  }

  ghost predicate InfoOk(idx: Lookup, lists: map<nat, seq<Place>>, id: Id, info: BlobInfo) {
    && idx(id) != [] && info.offset == idx(id)[0].blob.offset && info.length == idx(id)[0].blob.length
    && forall f :: OffsetsFor(info.files, f) == if f in lists then OffsetsOf(lists[f], id) else []
  }

  /** The blobs collected from the given places of the files. */
  ghost predicate Collected(idx: Lookup, lists: map<nat, seq<Place>>, blobs: map<Id, BlobInfo>) {
    && (forall id :: id in blobs <==> Mentioned(lists, id))
    && (forall id :: id in blobs ==> InfoOk(idx, lists, id, blobs[id]))
  }

  ghost predicate Mentioned(lists: map<nat, seq<Place>>, id: Id) {
    exists f :: f in lists && Mentions(lists[f], id)
  }

  lemma OffsetsPush(places: seq<Place>, pl: Place, id: Id)
    ensures OffsetsOf(places + [pl], id) == OffsetsOf(places, id) + if pl.blob.handle.id == id then [pl.offset] else []
    ensures Mentions(places + [pl], id) <==> Mentions(places, id) || pl.blob.handle.id == id
  {
    var all := places + [pl];
    assert all[..|places|] == places;
    if Mentions(places, id) {
      var k :| 0 <= k < |places| && places[k].blob.handle.id == id;
      assert all[k].blob.handle.id == id;
    }
    if pl.blob.handle.id == id {
      assert all[|places|].blob.handle.id == id;
    }
  }

  lemma {:induction false} NoOffsets(places: seq<Place>, id: Id)
    requires !Mentions(places, id)
    ensures OffsetsOf(places, id) == []
  {
    if places != [] {
      NoOffsets(places[..|places| - 1], id);
    }
  }

  lemma CollectKeys(idx: Lookup, lists: map<nat, seq<Place>>, blobs: map<Id, BlobInfo>, f: nat, pl: Place, id: Id)
    requires Collected(idx, lists, blobs) && f in lists
    ensures id in AddBlob(blobs, f, pl.blob, pl.offset) <==> Mentioned(lists[f := lists[f] + [pl]], id)
  {
    hide Mentions;
    hide InfoOk;
    var lists1 := lists[f := lists[f] + [pl]];
    OffsetsPush(lists[f], pl, id);
    if id in blobs {
      var g :| g in lists && Mentions(lists[g], id);
      assert Mentions(lists1[g], id);
    }
    if id == pl.blob.handle.id {
      assert Mentions(lists1[f], id);
    }
  }

  lemma CollectInfo(idx: Lookup, lists: map<nat, seq<Place>>, blobs: map<Id, BlobInfo>, f: nat, pl: Place, id: Id)
    requires Collected(idx, lists, blobs) && f in lists && id in AddBlob(blobs, f, pl.blob, pl.offset)
    requires idx(pl.blob.handle.id) != [] && idx(pl.blob.handle.id)[0].blob == pl.blob
    ensures InfoOk(idx, lists[f := lists[f] + [pl]], id, AddBlob(blobs, f, pl.blob, pl.offset)[id])
  {
    hide OffsetsOf;
    hide Mentions;
    OffsetsPush(lists[f], pl, id);
    if id !in blobs {
      forall g | g in lists ensures OffsetsOf(lists[g], id) == [] {
        NoOffsets(lists[g], id);
      }
    } else {
      assert InfoOk(idx, lists, id, blobs[id]);
    }
  }

  lemma CollectStep(idx: Lookup, lists: map<nat, seq<Place>>, blobs: map<Id, BlobInfo>, f: nat, pl: Place)
    requires Collected(idx, lists, blobs) && f in lists
    requires idx(pl.blob.handle.id) != [] && idx(pl.blob.handle.id)[0].blob == pl.blob
    ensures Collected(idx, lists[f := lists[f] + [pl]], AddBlob(blobs, f, pl.blob, pl.offset))
  {
    hide InfoOk;
    hide Mentioned;
    hide AddBlob;
    var lists1, blobs1 := lists[f := lists[f] + [pl]], AddBlob(blobs, f, pl.blob, pl.offset);
    forall id ensures id in blobs1 <==> Mentioned(lists1, id) {
      CollectKeys(idx, lists, blobs, f, pl, id);
    }
    forall id | id in blobs1 ensures InfoOk(idx, lists1, id, blobs1[id]) {
      CollectInfo(idx, lists, blobs, f, pl, id);
    }
  }

  /** A file of which no place has been looked at yet adds nothing. */
  lemma CollectFile(idx: Lookup, lists: map<nat, seq<Place>>, blobs: map<Id, BlobInfo>, f: nat)
    requires Collected(idx, lists, blobs) && f !in lists
    ensures Collected(idx, lists[f := []], blobs)
  {
    hide Mentioned;
    hide OffsetsOf;
    var lists1 := lists[f := []];
    forall id ensures Mentioned(lists1, id) <==> Mentioned(lists, id) {
      MentionedFile(lists, f, id);
    }
    forall id | id in blobs ensures InfoOk(idx, lists1, id, blobs[id]) {
      assert InfoOk(idx, lists, id, blobs[id]);
      NoOffsets([], id);
    }
  }

  lemma MentionedFile(lists: map<nat, seq<Place>>, f: nat, id: Id)
    requires f !in lists
    ensures Mentioned(lists[f := []], id) <==> Mentioned(lists, id)
  {
    var lists1 := lists[f := []];
    if g :| g in lists && Mentions(lists[g], id) {
      assert Mentions(lists1[g], id);
    }
  }

  /** The range of a pack that covers all collected blobs. */
  ghost predicate Covers(blobs: map<Id, BlobInfo>, start: int, end: int) {
    forall id :: id in blobs ==> start <= blobs[id].offset && blobs[id].offset + blobs[id].length <= end
  }

  /** The bounds of the range are bounds of blobs. */
  ghost predicate Tight(blobs: map<Id, BlobInfo>, start: int, end: int) {
    blobs != map[] ==>
      && (exists id :: id in blobs && start == blobs[id].offset)
      && (exists id :: id in blobs && end == blobs[id].offset + blobs[id].length)
  }

  ghost predicate Bounded(blobs: map<Id, BlobInfo>, start: int, end: int) {
    Covers(blobs, start, end) && Tight(blobs, start, end) && (blobs == map[] ==> start == MAX_INT64 && end == 0)
  }

  lemma BoundedStep(blobs: map<Id, BlobInfo>, start: int, end: int, f: nat, pl: Place)
    requires Bounded(blobs, start, end) && pl.blob.offset <= MAX_INT64
    requires pl.blob.handle.id in blobs ==>
               blobs[pl.blob.handle.id].offset == pl.blob.offset && blobs[pl.blob.handle.id].length == pl.blob.length
    ensures Bounded(AddBlob(blobs, f, pl.blob, pl.offset),
                    if start > pl.blob.offset then pl.blob.offset else start,
                    if end < pl.blob.offset + pl.blob.length then pl.blob.offset + pl.blob.length else end)
  {
    var blobs1 := AddBlob(blobs, f, pl.blob, pl.offset);
    assert pl.blob.handle.id in blobs1;
    assert forall id :: id in blobs ==>
      id in blobs1 && blobs1[id].offset == blobs[id].offset && blobs1[id].length == blobs[id].length;
    if blobs != map[] {
      var a :| a in blobs && start == blobs[a].offset;
      var b :| b in blobs && end == blobs[b].offset + blobs[b].length;
      assert a in blobs1 && b in blobs1;
    }
  }

  /** The places of a file that one pack serves. */
  ghost predicate Serves(idx: Lookup, content: seq<Id>, packId: Id, list: seq<Place>) {
    AllKnown(idx, content) && list == In(Places(idx, content), packId)
  }

  /** Collects the blobs of one pack from the files that use it, and the range they cover. */
  method Collect(idx: Lookup, files: seq<FileInfo>, plans: seq<FilePlan>, packId: Id, users: set<nat>)
    returns (blobs: map<Id, BlobInfo>, start: int, end: int, ghost lists: map<nat, seq<Place>>)
    requires IndexOk(idx) && |plans| == |files|
             && forall f :: 0 <= f < |files| ==> PlanOk(idx, files[f].content, plans[f])
    requires forall f :: f in users ==> f < |files|
    ensures lists.Keys == users && Collected(idx, lists, blobs) && Bounded(blobs, start, end)
    ensures forall f :: f in users ==> Serves(idx, files[f].content, packId, lists[f])
  {
    hide Collected;
    hide Bounded;
    hide PlanOk;
    hide IndexOk;
    hide Serves;
    blobs, lists, start, end := map[], map[], MAX_INT64, 0;
    CollectNothing(idx);
    var rest := users;
    while rest != {}
      invariant rest <= users && lists.Keys == users - rest
      invariant Collected(idx, lists, blobs) && Bounded(blobs, start, end)
      invariant forall f :: f in lists ==> Serves(idx, files[f].content, packId, lists[f])
      decreases |rest|
    {
      var f :| f in rest;
      blobs, start, end, lists := CollectFrom(idx, files[f].content, plans[f], packId, f, blobs, start, end, lists);
      rest := rest - {f};
    }
  }

  /** Collects the blobs of one pack that one file needs. */
  method CollectFrom(idx: Lookup, ghost content: seq<Id>, plan: FilePlan, packId: Id, f: nat, blobs: map<Id, BlobInfo>,
                     start: int, end: int, ghost lists: map<nat, seq<Place>>)
    returns (blobs1: map<Id, BlobInfo>, start1: int, end1: int, ghost lists1: map<nat, seq<Place>>)
    requires IndexOk(idx) && PlanOk(idx, content, plan) && f !in lists
    requires Collected(idx, lists, blobs) && Bounded(blobs, start, end)
    ensures Collected(idx, lists1, blobs1) && Bounded(blobs1, start1, end1)
    ensures lists1.Keys == lists.Keys + {f} && Serves(idx, content, packId, lists1[f])
    ensures forall g :: g in lists ==> lists1[g] == lists[g]
  {
    hide Collected;
    hide Bounded;
    hide Maps;
    hide Places;
    hide In;
    hide AddBlob;
    var list := PlacesIn(idx, content, plan, packId);
    blobs1, start1, end1, lists1 := blobs, start, end, lists[f := []];
    CollectFile(idx, lists, blobs, f);
    for j := 0 to |list|
      invariant lists1 == lists[f := list[..j]] && Collected(idx, lists1, blobs1) && Bounded(blobs1, start1, end1)
    {
      var pl := list[j];
      InMember(Places(idx, content), packId, pl);
      PlaceIsFirst(idx, content, pl);
      CollectedInfo(idx, lists1, blobs1, pl.blob.handle.id);
      BoundedStep(blobs1, start1, end1, f, pl);
      CollectStep(idx, lists1, blobs1, f, pl);
      if start1 > pl.blob.offset {
        start1 := pl.blob.offset;
      }
      if end1 < pl.blob.offset + pl.blob.length {
        end1 := pl.blob.offset + pl.blob.length;
      }
      blobs1 := AddBlob(blobs1, f, pl.blob, pl.offset);
      lists1 := lists1[f := list[..j + 1]];
      assert list[..j + 1] == list[..j] + [pl];
    }
    assert list[..|list|] == list;
  }

  lemma CollectedInfo(idx: Lookup, lists: map<nat, seq<Place>>, blobs: map<Id, BlobInfo>, id: Id)
    requires Collected(idx, lists, blobs)
    ensures id in blobs ==>
              idx(id) != [] && blobs[id].offset == idx(id)[0].blob.offset && blobs[id].length == idx(id)[0].blob.length
  {
    hide Mentioned;
    hide OffsetsOf;
  }

  lemma CollectNothing(idx: Lookup)
    ensures Collected(idx, map[], map[]) && Bounded(map[], MAX_INT64, 0)
  {
  }

  // ---------------------------------------------------------------- reading one pack

  datatype Write = Write(file: nat, offset: int, data: seq<byte>)

  /** The plaintext of a stored blob, if it opens and has the right hash. */
  function DecryptBlob(e: Env, id: Id, buf: seq<byte>): Option<seq<byte>> {
    if |buf| < NONCE_SIZE then None
    else
      match e.key.Opened(buf)
      case None => None
      case Some(p) => if e.hash(p) == id then Some(p) else None
  }

  /** The plaintext of a blob in a pack file. */
  function PlainIn(e: Env, pack: seq<byte>, id: Id, offset: nat, length: nat): Option<seq<byte>> {
    if offset + length > |pack| then None else DecryptBlob(e, id, pack[offset..offset + length])
  }

  /** The blobs of a pack do not overlap. */
  ghost predicate Disjoint(blobs: map<Id, BlobInfo>) {
    && (forall a, b :: a in blobs && b in blobs && a != b ==>
          blobs[a].offset + blobs[a].length <= blobs[b].offset || blobs[b].offset + blobs[b].length <= blobs[a].offset)
    && (forall a :: a in blobs ==> blobs[a].length > 0)
  }

  method FirstByOffset(blobs: map<Id, BlobInfo>, ids: set<Id>) returns (first: Id)
    requires ids != {} && ids <= blobs.Keys
    ensures first in ids && forall id :: id in ids ==> blobs[first].offset <= blobs[id].offset
  {
    first :| first in ids;
    var rest := ids - {first};
    while rest != {}
      invariant first in ids && rest <= ids
      invariant forall id :: id in ids && id !in rest ==> blobs[first].offset <= blobs[id].offset
      decreases |rest|
    {
      var id :| id in rest;
      if blobs[id].offset < blobs[first].offset {
        first := id;
      }
      rest := rest - {id};
    }
  }

  ghost predicate ByOffset(blobs: map<Id, BlobInfo>, sorted: seq<Id>) {
    && (forall i :: 0 <= i < |sorted| ==> sorted[i] in blobs)
    && (forall i, j :: 0 <= i < j < |sorted| ==> blobs[sorted[i]].offset <= blobs[sorted[j]].offset)
  }

  /** The identifiers of the blobs in the order of their offsets in the pack. */
  method SortBlobs(blobs: map<Id, BlobInfo>) returns (sorted: seq<Id>)
    ensures Enumerates(sorted, blobs.Keys) && ByOffset(blobs, sorted)
  {
    sorted := [];
    var rest := blobs.Keys;
    while rest != {}
      invariant rest <= blobs.Keys && Enumerates(sorted, blobs.Keys - rest) && ByOffset(blobs, sorted)
      invariant forall i, id :: 0 <= i < |sorted| && id in rest ==> blobs[sorted[i]].offset <= blobs[id].offset
      decreases |rest|
    {
      var id := FirstByOffset(blobs, rest);
      sorted := sorted + [id];
      rest := rest - {id};
    }
  }

  ghost function Count(offsets: seq<int>, offset: int): nat {
    multiset(offsets)[offset]
  }

  /** Writes a blob to all its places in one file. */
  method WriteToFile(f: nat, offsets: seq<int>, data: seq<byte>) returns (log: seq<Write>)
    ensures forall w :: multiset(log)[w] == if w.file == f && w.data == data then Count(offsets, w.offset) else 0
  {
    log := [];
    for j := 0 to |offsets|
      invariant forall w ::
                  multiset(log)[w] == if w.file == f && w.data == data then Count(offsets[..j], w.offset) else 0
    {
      assert offsets[..j + 1] == offsets[..j] + [offsets[j]];
      log := log + [Write(f, offsets[j], data)];
    }
    assert offsets[..|offsets|] == offsets;
  }

  /** Writes a blob to all files that need it, in any order. */
  method WriteToFiles(files: map<nat, seq<int>>, data: seq<byte>) returns (log: seq<Write>)
    ensures forall w :: multiset(log)[w] == if w.data == data then Count(OffsetsFor(files, w.file), w.offset) else 0
  {
    log := [];
    var rest := files.Keys;
    while rest != {}
      invariant rest <= files.Keys
      invariant forall w ::
                  multiset(log)[w] ==
                  if w.data == data && w.file !in rest then Count(OffsetsFor(files, w.file), w.offset) else 0
      decreases |rest|
    {
      var f :| f in rest;
      var more := WriteToFile(f, files[f], data);
      log := log + more;
      rest := rest - {f};
    }
  }

  /** How often a write is due for the blobs that have been read. */
  ghost function Due(e: Env, pack: seq<byte>, blobs: map<Id, BlobInfo>, done: seq<Id>, w: Write): nat {
    var id := e.hash(w.data);
    if id in done && id in blobs && PlainIn(e, pack, id, blobs[id].offset, blobs[id].length) == Some(w.data)
    then Count(OffsetsFor(blobs[id].files, w.file), w.offset)
    else 0
  }

  ghost predicate Logged(e: Env, pack: seq<byte>, blobs: map<Id, BlobInfo>, done: seq<Id>, log: seq<Write>) {
    forall w :: multiset(log)[w] == Due(e, pack, blobs, done, w)
  }

  /** The log of a pack: every write is there as often as it is due. */
  ghost predicate AllDue(e: Env, pack: seq<byte>, blobs: map<Id, BlobInfo>, log: seq<Write>) {
    forall w :: multiset(log)[w] == Due(e, pack, blobs, [e.hash(w.data)], w)
  }

  lemma LoggedStep(e: Env, pack: seq<byte>, blobs: map<Id, BlobInfo>, done: seq<Id>, log: seq<Write>, id: Id,
                   data: seq<byte>, more: seq<Write>)
    requires Logged(e, pack, blobs, done, log) && id !in done && id in blobs
    requires PlainIn(e, pack, id, blobs[id].offset, blobs[id].length) == Some(data)
    requires forall w ::
               multiset(more)[w] ==
               if w.data == data then Count(OffsetsFor(blobs[id].files, w.file), w.offset) else 0
    ensures Logged(e, pack, blobs, done + [id], log + more)
  {
    hide Count;
    hide OffsetsFor;
    forall w ensures multiset(log + more)[w] == Due(e, pack, blobs, done + [id], w) {
      assert multiset(log)[w] == Due(e, pack, blobs, done, w);
      assert e.hash(data) == id;
    }
  }

  /** Everything that was collected can be read. */
  ghost predicate AllPlain(e: Env, pack: seq<byte>, blobs: map<Id, BlobInfo>) {
    forall id :: id in blobs ==> PlainIn(e, pack, id, blobs[id].offset, blobs[id].length).Some?
  }

  /**
   Reads the range of a pack from start to end and writes every blob to its
   places.  The reader only moves forward.
   */
  method Stream(e: Env, pack: seq<byte>, blobs: map<Id, BlobInfo>, start: int, end: int)
    returns (ok: bool, log: seq<Write>)
    requires Bounded(blobs, start, end) && Disjoint(blobs) && blobs != map[]
    ensures ok ==> AllDue(e, pack, blobs, log)
    ensures AllPlain(e, pack, blobs) ==> ok
  {
    hide Count;
    hide OffsetsFor;
    hide Logged;
    hide DecryptBlob;
    hide Enumerates;
    hide AllDue;
    hide Disjoint;
    hide Tight;
    var sorted := SortBlobs(blobs);
    log := [];
    LoggedNothing(e, pack, blobs);
    if end > |pack| {
      NotAllPlain(e, pack, blobs, start, end);
      return false, log;
    }
    StartBeforeEnd(blobs, start, end);
    var rd, currentBlobEnd := pack[start..end], start;
    for i := 0 to |sorted|
      invariant start <= currentBlobEnd <= end <= |pack| && rd == pack[currentBlobEnd..end]
      invariant forall j :: i <= j < |sorted| ==> currentBlobEnd <= blobs[sorted[j]].offset
      invariant Logged(e, pack, blobs, sorted[..i], log)
    {
      var id := sorted[i];
      var blob := blobs[id];
      var skip := blob.offset - currentBlobEnd;
      Window(pack, currentBlobEnd, end, skip, blob.length);
      rd := rd[skip..];
      var buf := rd[..blob.length];
      rd := rd[blob.length..];
      var data := DecryptBlob(e, id, buf);
      if data.None? {
        return false, log;
      }
      currentBlobEnd := blob.offset + blob.length;
      var more := WriteToFiles(blob.files, data.value);
      SortedApart(blobs, sorted, i);
      LoggedStep(e, pack, blobs, sorted[..i], log, id, data.value, more);
      log := log + more;
      assert sorted[..i + 1] == sorted[..i] + [id];
    }
    assert sorted[..|sorted|] == sorted;
    AllLogged(e, pack, blobs, sorted, log);
    ok := true;
  }

  lemma LoggedNothing(e: Env, pack: seq<byte>, blobs: map<Id, BlobInfo>)
    ensures Logged(e, pack, blobs, [], [])
  {
  }

  lemma NotAllPlain(e: Env, pack: seq<byte>, blobs: map<Id, BlobInfo>, start: int, end: int)
    requires Bounded(blobs, start, end) && blobs != map[] && end > |pack|
    ensures !AllPlain(e, pack, blobs)
  {
    var id :| id in blobs && end == blobs[id].offset + blobs[id].length;
  }

  lemma StartBeforeEnd(blobs: map<Id, BlobInfo>, start: int, end: int)
    requires Bounded(blobs, start, end) && blobs != map[]
    ensures 0 <= start <= end
  {
    var id :| id in blobs && start == blobs[id].offset;
  }

  /** The bytes of a blob, seen through the reader. */
  lemma Window(pack: seq<byte>, cur: nat, end: nat, skip: nat, length: nat)
    requires cur + skip + length <= end <= |pack|
    ensures pack[cur..end][skip..] == pack[cur + skip..end]
    ensures pack[cur + skip..end][..length] == pack[cur + skip..cur + skip + length]
    ensures pack[cur + skip..end][length..] == pack[cur + skip + length..end]
  {
  }

  /** In the order of offsets, a blob comes after all earlier ones have ended, and is new. */
  lemma SortedApart(blobs: map<Id, BlobInfo>, sorted: seq<Id>, i: nat)
    requires Enumerates(sorted, blobs.Keys) && ByOffset(blobs, sorted) && Disjoint(blobs) && i < |sorted|
    ensures sorted[i] !in sorted[..i]
    ensures forall j :: i < j < |sorted| ==>
              blobs[sorted[i]].offset + blobs[sorted[i]].length <= blobs[sorted[j]].offset
  {
  }

  lemma AllLogged(e: Env, pack: seq<byte>, blobs: map<Id, BlobInfo>, sorted: seq<Id>, log: seq<Write>)
    requires Enumerates(sorted, blobs.Keys) && Logged(e, pack, blobs, sorted, log)
    ensures AllDue(e, pack, blobs, log)
  {
    hide Count;
    hide PlainIn;
    forall w ensures multiset(log)[w] == Due(e, pack, blobs, [e.hash(w.data)], w) {
      assert multiset(log)[w] == Due(e, pack, blobs, sorted, w);
    }
  }

  // ---------------------------------------------------------------- all packs

  /** The plaintext of a blob, read from the location the index names first. */
  ghost function PlainAt(e: Env, backend: map<Id, seq<byte>>, idx: Lookup, id: Id): Option<seq<byte>> {
    if idx(id) == [] || idx(id)[0].packId !in backend then None
    else PlainIn(e, backend[idx(id)[0].packId], id, idx(id)[0].blob.offset, idx(id)[0].blob.length)
  }

  /** How often a write is due, over all files. */
  ghost function DueIn(e: Env, backend: map<Id, seq<byte>>, idx: Lookup, files: seq<FileInfo>, w: Write): nat {
    var id := e.hash(w.data);
    if w.file < |files| && AllKnown(idx, files[w.file].content) && PlainAt(e, backend, idx, id) == Some(w.data)
    then Count(OffsetsOf(Places(idx, files[w.file].content), id), w.offset)
    else 0
  }

  /** The blob is read from one of the given packs. */
  ghost predicate ReadFrom(idx: Lookup, id: Id, packs: seq<Id>) {
    idx(id) != [] && idx(id)[0].packId in packs
  }

  ghost predicate LoggedPacks(e: Env, backend: map<Id, seq<byte>>, idx: Lookup, files: seq<FileInfo>, packs: seq<Id>,
                              log: seq<Write>)
  {
    forall w :: multiset(log)[w] == if ReadFrom(idx, e.hash(w.data), packs) then DueIn(e, backend, idx, files, w) else 0
  }

  /** All places of a blob in a file are served by the pack that the index names first. */
  lemma {:induction false} OffsetsIn(idx: Lookup, content: seq<Id>, packId: Id, id: Id)
    requires AllKnown(idx, content) && IndexOk(idx) && idx(id) != [] && idx(id)[0].packId == packId
    ensures OffsetsOf(In(Places(idx, content), packId), id) == OffsetsOf(Places(idx, content), id)
  {
    if content != [] {
      var k := |content| - 1;
      var init, pb := content[..k], idx(content[k])[0];
      OffsetsIn(idx, init, packId, id);
      assert content[..k + 1] == content;
      PlacesStep(idx, content, k, packId);
      var pl := Place(pb.packId, pb.blob, End(idx, init));
      OffsetsPush(Places(idx, init), pl, id);
      OffsetsPush(In(Places(idx, init), packId), pl, id);
    }
  }

  /** A file that has a blob uses the pack that the blob is read from. */
  lemma {:induction false} MentionsUses(idx: Lookup, content: seq<Id>, id: Id)
    requires AllKnown(idx, content) && IndexOk(idx)
    ensures Mentions(Places(idx, content), id) <==> id in content
    ensures id in content ==> idx(id) != [] && Uses(idx, content, idx(id)[0].packId)
  {
    if content != [] {
      var k := |content| - 1;
      MentionsUses(idx, content[..k], id);
      assert content == content[..k] + [content[k]];
      var pb := idx(content[k])[0];
      OffsetsPush(Places(idx, content[..k]), Place(pb.packId, pb.blob, End(idx, content[..k])), id);
    }
  }

  lemma {:induction false} MentionsIn(places: seq<Place>, packId: Id, id: Id)
    ensures Mentions(In(places, packId), id) ==> Mentions(places, id)
  {
    if Mentions(In(places, packId), id) {
      var k :| 0 <= k < |In(places, packId)| && In(places, packId)[k].blob.handle.id == id;
      InMember(places, packId, In(places, packId)[k]);
    }
  }

  ghost predicate CollectedPack(idx: Lookup, files: seq<FileInfo>, packId: Id, users: set<nat>,
                                lists: map<nat, seq<Place>>, blobs: map<Id, BlobInfo>)
  {
    && IndexOk(idx) && lists.Keys == users && Collected(idx, lists, blobs)
    && (forall f :: f in users <==> UsedBy(idx, files, f, packId))
    && (forall f :: 0 <= f < |files| ==> AllKnown(idx, files[f].content))
    && (forall f :: f in users ==> Serves(idx, files[f].content, packId, lists[f]))
  }

  /** A collected blob is one that the pack serves. */
  lemma CollectedServed(idx: Lookup, files: seq<FileInfo>, packId: Id, users: set<nat>, lists: map<nat, seq<Place>>,
                        blobs: map<Id, BlobInfo>, id: Id)
    requires CollectedPack(idx, files, packId, users, lists, blobs) && id in blobs
    ensures idx(id) != [] && idx(id)[0].packId == packId
    ensures blobs[id].offset == idx(id)[0].blob.offset && blobs[id].length == idx(id)[0].blob.length
  {
    hide Places;
    hide In;
    hide OffsetsOf;
    assert Mentioned(lists, id) && InfoOk(idx, lists, id, blobs[id]);
    var f :| f in lists && Mentions(lists[f], id);
    assert Serves(idx, files[f].content, packId, lists[f]) && UsedBy(idx, files, f, packId);
    var k :| 0 <= k < |lists[f]| && lists[f][k].blob.handle.id == id;
    InMember(Places(idx, files[f].content), packId, lists[f][k]);
    PlaceIsFirst(idx, files[f].content, lists[f][k]);
  }

  /** A blob that the pack serves in some file is collected, with its offsets there. */
  lemma ServedCollected(idx: Lookup, files: seq<FileInfo>, packId: Id, users: set<nat>, lists: map<nat, seq<Place>>,
                        blobs: map<Id, BlobInfo>, id: Id, f: nat)
    requires CollectedPack(idx, files, packId, users, lists, blobs) && f < |files|
    requires idx(id) != [] && idx(id)[0].packId == packId
    ensures var offsets := OffsetsOf(Places(idx, files[f].content), id);
            if id in blobs then OffsetsFor(blobs[id].files, f) == offsets else offsets == []
  {
    hide Places;
    hide In;
    hide OffsetsOf;
    hide OffsetsFor;
    var content := files[f].content;
    OffsetsIn(idx, content, packId, id);
    MentionsUses(idx, content, id);
    if f in users {
      assert Serves(idx, content, packId, lists[f]);
      if id in blobs {
        assert InfoOk(idx, lists, id, blobs[id]);
      } else {
        assert !Mentioned(lists, id);
        assert !Mentions(lists[f], id);
        NoOffsets(lists[f], id);
      }
    } else {
      assert !UsedBy(idx, files, f, packId);
      NoOffsets(Places(idx, content), id);
      if id in blobs {
        assert InfoOk(idx, lists, id, blobs[id]);
      }
    }
  }

  /** What was written from one pack is what is due from it. */
  lemma PackLogged(e: Env, backend: map<Id, seq<byte>>, idx: Lookup, files: seq<FileInfo>, packId: Id, users: set<nat>,
                   lists: map<nat, seq<Place>>, blobs: map<Id, BlobInfo>, log: seq<Write>)
    requires CollectedPack(idx, files, packId, users, lists, blobs) && packId in backend
    requires AllDue(e, backend[packId], blobs, log)
    ensures LoggedPacks(e, backend, idx, files, [packId], log)
  {
    hide CollectedPack;
    hide Places;
    hide OffsetsOf;
    hide Count;
    hide PlainIn;
    forall w
      ensures multiset(log)[w] ==
              if ReadFrom(idx, e.hash(w.data), [packId]) then DueIn(e, backend, idx, files, w) else 0
    {
      var id := e.hash(w.data);
      if id in blobs {
        CollectedServed(idx, files, packId, users, lists, blobs, id);
      }
      CollectedKnown(idx, files, packId, users, lists, blobs, id, w.file);
      if w.file < |files| && ReadFrom(idx, id, [packId]) {
        ServedCollected(idx, files, packId, users, lists, blobs, id, w.file);
      }
      NoCount(w.offset);
    }
  }

  lemma CollectedKnown(idx: Lookup, files: seq<FileInfo>, packId: Id, users: set<nat>, lists: map<nat, seq<Place>>,
                       blobs: map<Id, BlobInfo>, id: Id, f: nat)
    requires CollectedPack(idx, files, packId, users, lists, blobs)
    ensures f < |files| ==> AllKnown(idx, files[f].content)
    ensures f >= |files| && id in blobs ==> OffsetsFor(blobs[id].files, f) == []
  {
    hide AllKnown;
    hide Serves;
    if f >= |files| && id in blobs {
      assert !UsedBy(idx, files, f, packId);
      assert InfoOk(idx, lists, id, blobs[id]);
    }
  }

  lemma NoCount(offset: int)
    ensures Count([], offset) == 0
  {
  }

  lemma LoggedPacksStep(e: Env, backend: map<Id, seq<byte>>, idx: Lookup, files: seq<FileInfo>, packs: seq<Id>,
                        packId: Id, log: seq<Write>, more: seq<Write>)
    requires LoggedPacks(e, backend, idx, files, packs, log) && LoggedPacks(e, backend, idx, files, [packId], more)
    requires packId !in packs
    ensures LoggedPacks(e, backend, idx, files, packs + [packId], log + more)
  {
    hide DueIn;
  }

  /** Blobs in one pack do not overlap. */
  ghost predicate NonOverlapping(idx: Lookup) {
    && (forall a, b :: a != b && idx(a) != [] && idx(b) != [] && idx(a)[0].packId == idx(b)[0].packId ==>
          idx(a)[0].blob.offset + idx(a)[0].blob.length <= idx(b)[0].blob.offset
          || idx(b)[0].blob.offset + idx(b)[0].blob.length <= idx(a)[0].blob.offset)
    && (forall a :: idx(a) != [] ==> idx(a)[0].blob.length > 0)
  }

  lemma CollectedDisjoint(idx: Lookup, files: seq<FileInfo>, packId: Id, users: set<nat>, lists: map<nat, seq<Place>>,
                          blobs: map<Id, BlobInfo>)
    requires CollectedPack(idx, files, packId, users, lists, blobs) && NonOverlapping(idx)
    ensures Disjoint(blobs)
  {
    hide CollectedPack;
    forall id | id in blobs
      ensures idx(id) != [] && idx(id)[0].packId == packId
      ensures blobs[id].offset == idx(id)[0].blob.offset && blobs[id].length == idx(id)[0].blob.length
    {
      CollectedServed(idx, files, packId, users, lists, blobs, id);
    }
  }

  lemma CollectedSome(idx: Lookup, files: seq<FileInfo>, packId: Id, users: set<nat>, lists: map<nat, seq<Place>>,
                      blobs: map<Id, BlobInfo>)
    requires CollectedPack(idx, files, packId, users, lists, blobs) && users != {}
    ensures blobs != map[]
  {
    hide Places;
    hide OffsetsOf;
    hide In;
    var f :| f in users;
    assert UsedBy(idx, files, f, packId) && Serves(idx, files[f].content, packId, lists[f]);
    var content := files[f].content;
    var k :| 0 <= k < |content| && idx(content[k]) != [] && idx(content[k])[0].packId == packId;
    MentionsUses(idx, content, content[k]);
    OffsetsIn(idx, content, packId, content[k]);
    if !Mentions(lists[f], content[k]) {
      NoOffsets(lists[f], content[k]);
      SomeOffset(Places(idx, content), content[k]);
      assert false;
    }
    assert Mentioned(lists, content[k]);
  }

  lemma {:induction false} SomeOffset(places: seq<Place>, id: Id)
    requires Mentions(places, id)
    ensures OffsetsOf(places, id) != []
  {
    var last := |places| - 1;
    if places[last].blob.handle.id != id {
      var k :| 0 <= k < |places| && places[k].blob.handle.id == id;
      assert places[..last][k].blob.handle.id == id;
      SomeOffset(places[..last], id);
    }
  }

  /** Every blob that a file needs is known and can be read. */
  ghost predicate AllReadable(e: Env, backend: map<Id, seq<byte>>, idx: Lookup, files: seq<FileInfo>) {
    forall f, k :: 0 <= f < |files| && 0 <= k < |files[f].content| ==>
      PlainAt(e, backend, idx, files[f].content[k]).Some?
  }

  lemma ReadableCollected(e: Env, backend: map<Id, seq<byte>>, idx: Lookup, files: seq<FileInfo>, packId: Id,
                          users: set<nat>, lists: map<nat, seq<Place>>, blobs: map<Id, BlobInfo>)
    requires CollectedPack(idx, files, packId, users, lists, blobs) && AllReadable(e, backend, idx, files)
    requires packId in backend
    ensures AllPlain(e, backend[packId], blobs)
  {
    hide PlainIn;
    forall id | id in blobs ensures PlainIn(e, backend[packId], id, blobs[id].offset, blobs[id].length).Some? {
      CollectedServed(idx, files, packId, users, lists, blobs, id);
      var f := CollectedFrom(idx, files, packId, users, lists, blobs, id);
      var k :| 0 <= k < |files[f].content| && files[f].content[k] == id;
      assert PlainAt(e, backend, idx, files[f].content[k]).Some?;
    }
  }

  lemma CollectedFrom(idx: Lookup, files: seq<FileInfo>, packId: Id, users: set<nat>, lists: map<nat, seq<Place>>,
                      blobs: map<Id, BlobInfo>, id: Id) returns (f: nat)
    requires CollectedPack(idx, files, packId, users, lists, blobs) && id in blobs
    ensures f < |files| && id in files[f].content
  {
    hide Places;
    hide In;
    hide InfoOk;
    assert Mentioned(lists, id);
    f :| f in lists && Mentions(lists[f], id);
    assert UsedBy(idx, files, f, packId) && Serves(idx, files[f].content, packId, lists[f]);
    MentionsIn(Places(idx, files[f].content), packId, id);
    MentionsUses(idx, files[f].content, id);
  }

  ghost predicate AllPlanned(idx: Lookup, files: seq<FileInfo>, plans: seq<FilePlan>) {
    |plans| == |files| && forall f :: 0 <= f < |files| ==> PlanOk(idx, files[f].content, plans[f])
  }

  /** Downloads one pack and writes its blobs. */
  method DownloadPack(e: Env, backend: map<Id, seq<byte>>, idx: Lookup, files: seq<FileInfo>, plans: seq<FilePlan>,
                      packId: Id, users: set<nat>)
    returns (ok: bool, log: seq<Write>)
    requires IndexOk(idx) && NonOverlapping(idx) && AllPlanned(idx, files, plans) && users != {}
    requires forall f :: f in users <==> UsedBy(idx, files, f, packId)
    ensures ok ==> LoggedPacks(e, backend, idx, files, [packId], log)
    ensures packId in backend && AllReadable(e, backend, idx, files) ==> ok
  {
    hide Collected;
    hide Bounded;
    hide Serves;
    hide AllDue;
    hide LoggedPacks;
    hide AllPlain;
    hide AllReadable;
    hide Disjoint;
    hide NonOverlapping;
    hide IndexOk;
    hide Uses;
    hide Maps;
    var blobs, start, end, lists := Collect(idx, files, plans, packId, users);
    assert CollectedPack(idx, files, packId, users, lists, blobs);
    CollectedDisjoint(idx, files, packId, users, lists, blobs);
    CollectedSome(idx, files, packId, users, lists, blobs);
    if packId !in backend {
      return false, [];
    }
    ok, log := Stream(e, backend[packId], blobs, start, end);
    if ok {
      PackLogged(e, backend, idx, files, packId, users, lists, blobs, log);
    } else if AllReadable(e, backend, idx, files) {
      ReadableCollected(e, backend, idx, files, packId, users, lists, blobs);
    }
  }

  /** Every write is in the log as often as it is due. */
  ghost predicate AllWritten(e: Env, backend: map<Id, seq<byte>>, idx: Lookup, files: seq<FileInfo>, log: seq<Write>) {
    forall w :: multiset(log)[w] == DueIn(e, backend, idx, files, w)
  }

  lemma PacksSuffice(e: Env, backend: map<Id, seq<byte>>, idx: Lookup, files: seq<FileInfo>, packs: map<Id, set<nat>>,
                     packOrder: seq<Id>, log: seq<Write>)
    requires IndexOk(idx) && Registers(idx, files, packs) && Enumerates(packOrder, packs.Keys)
    requires LoggedPacks(e, backend, idx, files, packOrder, log)
    ensures AllWritten(e, backend, idx, files, log)
  {
    hide Places;
    hide OffsetsOf;
    hide PlainAt;
    hide Uses;
    forall w ensures multiset(log)[w] == DueIn(e, backend, idx, files, w) {
      var id := e.hash(w.data);
      if DueIn(e, backend, idx, files, w) > 0 {
        var content := files[w.file].content;
        MentionsUses(idx, content, id);
        if id !in content {
          NoOffsets(Places(idx, content), id);
          assert false;
        }
        assert UsedBy(idx, files, w.file, idx(id)[0].packId);
        assert Lists(packs, idx(id)[0].packId, w.file);
        assert ReadFrom(idx, id, packOrder);
      }
      assert multiset(log)[w] == if ReadFrom(idx, id, packOrder) then DueIn(e, backend, idx, files, w) else 0;
    }
  }

  /**
   Restores all files: every pack is downloaded once.  The run succeeds if every
   blob is known and readable.
   */
  method RestoreFiles(e: Env, backend: map<Id, seq<byte>>, idx: Lookup, files: seq<FileInfo>)
    returns (ok: bool, log: seq<Write>)
    requires IndexOk(idx) && NonOverlapping(idx)
    ensures ok ==>
              && AllWritten(e, backend, idx, files, log)
              && forall f :: 0 <= f < |files| ==> AllKnown(idx, files[f].content)
    ensures AllReadable(e, backend, idx, files) ==> ok
  {
    hide LoggedPacks;
    hide AllWritten;
    hide NonOverlapping;
    hide IndexOk;
    hide PlanOk;
    hide Uses;
    hide PlainAt;
    var known, plans, packs, packOrder := PlanFiles(idx, files);
    log := [];
    if !known {
      if AllReadable(e, backend, idx, files) {
        ReadableKnown(e, backend, idx, files);
      }
      return false, log;
    }
    NothingLogged(e, backend, idx, files);
    for i := 0 to |packOrder|
      invariant LoggedPacks(e, backend, idx, files, packOrder[..i], log)
    {
      var packId := packOrder[i];
      RegistersUsers(idx, files, packs, packId);
      var good, more := DownloadPack(e, backend, idx, files, plans, packId, packs[packId]);
      if !good {
        if AllReadable(e, backend, idx, files) {
          ReadablePack(e, backend, idx, files, packs, packId);
        }
        return false, log;
      }
      LoggedPacksStep(e, backend, idx, files, packOrder[..i], packId, log, more);
      log := log + more;
      assert packOrder[..i + 1] == packOrder[..i] + [packId];
    }
    assert packOrder[..|packOrder|] == packOrder;
    PacksSuffice(e, backend, idx, files, packs, packOrder, log);
    ok := true;
  }

  lemma NothingLogged(e: Env, backend: map<Id, seq<byte>>, idx: Lookup, files: seq<FileInfo>)
    ensures LoggedPacks(e, backend, idx, files, [], [])
  {
    hide DueIn;
  }

  lemma RegistersUsers(idx: Lookup, files: seq<FileInfo>, packs: map<Id, set<nat>>, packId: Id)
    requires Registers(idx, files, packs) && packId in packs
    ensures packs[packId] != {} && forall f :: f in packs[packId] <==> UsedBy(idx, files, f, packId)
  {
    hide UsedBy;
    forall f: nat ensures f in packs[packId] <==> UsedBy(idx, files, f, packId) {
      assert Lists(packs, packId, f) <==> UsedBy(idx, files, f, packId);
    }
  }

  lemma ReadableKnown(e: Env, backend: map<Id, seq<byte>>, idx: Lookup, files: seq<FileInfo>)
    requires AllReadable(e, backend, idx, files)
    ensures forall f :: 0 <= f < |files| ==> AllKnown(idx, files[f].content)
  {
    hide PlainIn;
  }

  lemma ReadablePack(e: Env, backend: map<Id, seq<byte>>, idx: Lookup, files: seq<FileInfo>, packs: map<Id, set<nat>>,
                     packId: Id)
    requires AllReadable(e, backend, idx, files) && Registers(idx, files, packs) && packId in packs
    ensures packId in backend
  {
    hide PlainIn;
    RegistersUsers(idx, files, packs, packId);
    var f :| f in packs[packId];
    var k :|
      && 0 <= k < |files[f].content| && idx(files[f].content[k]) != []
      && idx(files[f].content[k])[0].packId == packId;
    assert PlainAt(e, backend, idx, files[f].content[k]).Some?;
  }

  // ---------------------------------------------------------------- what the files end as

  ghost predicate ContentReadable(e: Env, backend: map<Id, seq<byte>>, idx: Lookup, content: seq<Id>) {
    forall k :: 0 <= k < |content| ==> PlainAt(e, backend, idx, content[k]).Some?
  }

  /** The file, as it was saved. */
  ghost function Concat(e: Env, backend: map<Id, seq<byte>>, idx: Lookup, content: seq<Id>): seq<byte>
    requires ContentReadable(e, backend, idx, content)
  {
    if content == [] then []
    else Concat(e, backend, idx, content[..|content| - 1]) + PlainAt(e, backend, idx, content[|content| - 1]).value
  }

  lemma ReadableLength(e: Env, backend: map<Id, seq<byte>>, idx: Lookup, id: Id)
    requires e.key.Sized() && PlainAt(e, backend, idx, id).Some?
    ensures idx(id) != [] && |PlainAt(e, backend, idx, id).value| == idx(id)[0].blob.length - EXTENSION
    ensures e.hash(PlainAt(e, backend, idx, id).value) == id
  {
    var pb := idx(id)[0];
    var buf := backend[pb.packId][pb.blob.offset..pb.blob.offset + pb.blob.length];
    assert e.key.open(buf[..NONCE_SIZE], buf[NONCE_SIZE..]).Some?;
  }

  /** The offsets of the places are where the blobs are in the file. */
  lemma {:induction false} ConcatLength(e: Env, backend: map<Id, seq<byte>>, idx: Lookup, content: seq<Id>)
    requires e.key.Sized() && ContentReadable(e, backend, idx, content)
    ensures AllKnown(idx, content) && |Concat(e, backend, idx, content)| == End(idx, content)
  {
    hide PlainAt;
    forall k | 0 <= k < |content| ensures idx(content[k]) != [] {
      ReadableLength(e, backend, idx, content[k]);
    }
    if content != [] {
      ConcatLength(e, backend, idx, content[..|content| - 1]);
      ReadableLength(e, backend, idx, content[|content| - 1]);
    }
  }

  lemma {:induction false} ConcatPrefix(e: Env, backend: map<Id, seq<byte>>, idx: Lookup, content: seq<Id>, k: nat)
    requires ContentReadable(e, backend, idx, content) && k <= |content|
    ensures Concat(e, backend, idx, content[..k]) <= Concat(e, backend, idx, content)
    decreases |content|
  {
    hide PlainAt;
    if k < |content| {
      ConcatPrefix(e, backend, idx, content[..|content| - 1], k);
      assert content[..|content| - 1][..k] == content[..k];
    } else {
      assert content[..k] == content;
    }
  }

  /** One write for every blob of a file. */
  ghost function FileWrites(e: Env, backend: map<Id, seq<byte>>, idx: Lookup, f: nat, content: seq<Id>)
    : (ws: seq<Write>)
    requires ContentReadable(e, backend, idx, content) && AllKnown(idx, content)
    ensures |ws| == |content|
    ensures forall k :: 0 <= k < |content| ==>
              ws[k] == Write(f, End(idx, content[..k]), PlainAt(e, backend, idx, content[k]).value)
  {
    seq(|content|, k requires 0 <= k < |content| =>
      Write(f, End(idx, content[..k]), PlainAt(e, backend, idx, content[k]).value))
  }

  /** Every blob of a file is due exactly as often as it occurs at that place. */
  lemma {:induction false} FileWritesDue(e: Env, backend: map<Id, seq<byte>>, idx: Lookup, f: nat, content: seq<Id>,
                                         w: Write)
    requires e.key.Sized() && IndexOk(idx) && ContentReadable(e, backend, idx, content) && AllKnown(idx, content)
    ensures multiset(FileWrites(e, backend, idx, f, content))[w] ==
            if w.file == f && PlainAt(e, backend, idx, e.hash(w.data)) == Some(w.data)
            then Count(OffsetsOf(Places(idx, content), e.hash(w.data)), w.offset)
            else 0
  {
    hide PlainAt;
    hide FileWrites;
    var ws := FileWrites(e, backend, idx, f, content);
    if content == [] {
      assert ws == [];
    } else {
      var k := |content| - 1;
      var init, last, pb := content[..k], content[k], idx(content[k])[0];
      FileWritesDue(e, backend, idx, f, init, w);
      ReadableLength(e, backend, idx, last);
      FileWritesStep(e, backend, idx, f, content);
      assert content[..k + 1] == content;
      PlacesStep(idx, content, k, last);
      OffsetsPush(Places(idx, init), Place(pb.packId, pb.blob, End(idx, init)), e.hash(w.data));
      CountPush(OffsetsOf(Places(idx, init), e.hash(w.data)), End(idx, init), w.offset);
    }
  }

  lemma FileWritesStep(e: Env, backend: map<Id, seq<byte>>, idx: Lookup, f: nat, content: seq<Id>)
    requires ContentReadable(e, backend, idx, content) && AllKnown(idx, content) && content != []
    ensures var init, last := content[..|content| - 1], content[|content| - 1];
            FileWrites(e, backend, idx, f, content) ==
            FileWrites(e, backend, idx, f, init) + [Write(f, End(idx, init), PlainAt(e, backend, idx, last).value)]
  {
    hide PlainAt;
    hide End;
    var init := content[..|content| - 1];
    forall k | 0 <= k < |init| ensures init[..k] == content[..k] {
    }
  }

  lemma CountPush(offsets: seq<int>, x: int, offset: int)
    ensures Count(offsets + [x], offset) == Count(offsets, offset) + One(x == offset)
  {
  }

  function Zeros(n: nat): seq<byte> {
    seq(n, _ => 0)
  }

  /** A file right after it was truncated, with or without preallocation. */
  function NewFile(size: nat, preallocated: bool): seq<byte> {
    if preallocated then Zeros(size) else []
  }

  /** Writes into a file; a gap is filled with zeros, and writing nothing changes nothing. */
  function WriteAt(c: seq<byte>, offset: nat, data: seq<byte>): seq<byte> {
    if data == [] then c
    else
      var padded := if |c| < offset then c + Zeros(offset - |c|) else c;
      padded[..offset] + data + if |padded| > offset + |data| then padded[offset + |data|..] else []
  }

  /** A file after some writes. */
  ghost function Applied(c: seq<byte>, f: nat, log: seq<Write>): seq<byte> {
    if log == [] then c
    else
      var before, w := Applied(c, f, log[..|log| - 1]), log[|log| - 1];
      if w.file == f && w.offset >= 0 then WriteAt(before, w.offset, w.data) else before
  }

  /** The write puts the right bytes in place. */
  ghost predicate Fits(target: seq<byte>, w: Write) {
    0 <= w.offset && w.offset + |w.data| <= |target| && w.data == target[w.offset..w.offset + |w.data|]
  }

  ghost predicate Reached(target: seq<byte>, c: seq<byte>, w: Write) {
    && 0 <= w.offset && (w.data != [] ==> w.offset + |w.data| <= |c| && w.offset + |w.data| <= |target|)
    && (forall p :: w.offset <= p < w.offset + |w.data| ==> c[p] == target[p])
  }

  lemma WriteAtAgrees(target: seq<byte>, c: seq<byte>, w: Write, v: Write)
    requires Fits(target, w) && |c| <= |target| && (v == w || Reached(target, c, v))
    ensures |c| <= |WriteAt(c, w.offset, w.data)| <= |target| && Reached(target, WriteAt(c, w.offset, w.data), v)
  {
    var c1 := WriteAt(c, w.offset, w.data);
    assert |c1| == if w.data == [] || w.offset + |w.data| <= |c| then |c| else w.offset + |w.data|;
    forall p | v.offset <= p < v.offset + |v.data| ensures c1[p] == target[p] {
      if w.offset <= p < w.offset + |w.data| {
        assert c1[p] == w.data[p - w.offset];
      } else {
        assert c1[p] == c[p];
      }
    }
  }

  ghost predicate AllFit(target: seq<byte>, f: nat, log: seq<Write>) {
    forall k :: 0 <= k < |log| && log[k].file == f ==> Fits(target, log[k])
  }

  /** Whatever has been written is right, in whatever order. */
  lemma {:induction false} AppliedAgrees(target: seq<byte>, c: seq<byte>, f: nat, log: seq<Write>)
    requires |c| <= |target| && AllFit(target, f, log)
    ensures |Applied(c, f, log)| <= |target|
    ensures forall k :: 0 <= k < |log| && log[k].file == f ==> Reached(target, Applied(c, f, log), log[k])
  {
    hide WriteAt;
    hide Reached;
    if log != [] {
      var last := |log| - 1;
      var init, w := log[..last], log[last];
      AppliedAgrees(target, c, f, init);
      var before := Applied(c, f, init);
      if w.file == f {
        assert Fits(target, w);
        WriteAtAgrees(target, before, w, w);
        forall k | 0 <= k < last && log[k].file == f ensures Reached(target, Applied(c, f, log), log[k]) {
          assert init[k] == log[k] && Fits(target, log[k]);
          WriteAtAgrees(target, before, w, log[k]);
        }
      } else {
        forall k | 0 <= k < last && log[k].file == f ensures Reached(target, Applied(c, f, log), log[k]) {
          assert init[k] == log[k];
        }
      }
    }
  }

  lemma {:induction false} AppliedGrows(c: seq<byte>, f: nat, log: seq<Write>)
    ensures |Applied(c, f, log)| >= |c|
  {
    if log != [] {
      AppliedGrows(c, f, log[..|log| - 1]);
    }
  }

  /** Every byte of a file belongs to one of its blobs. */
  lemma {:induction false} BlobAt(e: Env, backend: map<Id, seq<byte>>, idx: Lookup, content: seq<Id>, p: nat)
    returns (k: nat)
    requires e.key.Sized() && ContentReadable(e, backend, idx, content) && AllKnown(idx, content)
    requires p < |Concat(e, backend, idx, content)|
    ensures k < |content|
    ensures End(idx, content[..k]) <= p < End(idx, content[..k]) + |PlainAt(e, backend, idx, content[k]).value|
  {
    hide PlainAt;
    var last := |content| - 1;
    var init := content[..last];
    ConcatLength(e, backend, idx, init);
    if p < |Concat(e, backend, idx, init)| {
      k := BlobAt(e, backend, idx, init, p);
      assert init[..k] == content[..k];
    } else {
      k := last;
    }
  }

  lemma ConcatAt(e: Env, backend: map<Id, seq<byte>>, idx: Lookup, content: seq<Id>, k: nat)
    requires ContentReadable(e, backend, idx, content) && k < |content|
    ensures Concat(e, backend, idx, content[..k]) + PlainAt(e, backend, idx, content[k]).value
            <= Concat(e, backend, idx, content)
  {
    hide PlainAt;
    ConcatPrefix(e, backend, idx, content, k + 1);
    assert content[..k + 1][..k] == content[..k];
  }

  lemma SliceAfter(a: seq<byte>, b: seq<byte>, whole: seq<byte>)
    requires a + b <= whole
    ensures whole[|a|..|a| + |b|] == b
  {
    assert whole[|a|..|a| + |b|] == (a + b)[|a|..];
  }

  lemma FileWriteFits(e: Env, backend: map<Id, seq<byte>>, idx: Lookup, f: nat, content: seq<Id>, k: nat)
    requires e.key.Sized() && ContentReadable(e, backend, idx, content) && AllKnown(idx, content) && k < |content|
    ensures Fits(Concat(e, backend, idx, content), FileWrites(e, backend, idx, f, content)[k])
  {
    hide PlainAt;
    hide FileWrites;
    hide Concat;
    hide End;
    ConcatLength(e, backend, idx, content[..k]);
    ConcatAt(e, backend, idx, content, k);
    SliceAfter(Concat(e, backend, idx, content[..k]), PlainAt(e, backend, idx, content[k]).value,
               Concat(e, backend, idx, content));
  }

  /** Every write to one file is in the log as often as it is due. */
  ghost predicate FileWritten(e: Env, backend: map<Id, seq<byte>>, idx: Lookup, files: seq<FileInfo>, f: nat,
                              log: seq<Write>)
  {
    forall w: Write :: w.file == f ==> multiset(log)[w] == DueIn(e, backend, idx, files, w)
  }

  /** The writes to a file are one for every blob. */
  lemma WrittenOnce(e: Env, backend: map<Id, seq<byte>>, idx: Lookup, files: seq<FileInfo>, f: nat, log: seq<Write>,
                    w: Write)
    requires e.key.Sized() && IndexOk(idx) && FileWritten(e, backend, idx, files, f, log)
    requires f < |files| && ContentReadable(e, backend, idx, files[f].content) && w.file == f
    ensures AllKnown(idx, files[f].content)
    ensures multiset(log)[w] == multiset(FileWrites(e, backend, idx, f, files[f].content))[w]
  {
    hide PlainAt;
    hide FileWrites;
    hide OffsetsOf;
    hide Places;
    ConcatLength(e, backend, idx, files[f].content);
    FileWritesDue(e, backend, idx, f, files[f].content, w);
    assert multiset(log)[w] == DueIn(e, backend, idx, files, w);
  }

  lemma LogFits(e: Env, backend: map<Id, seq<byte>>, idx: Lookup, files: seq<FileInfo>, f: nat, log: seq<Write>)
    requires e.key.Sized() && IndexOk(idx) && FileWritten(e, backend, idx, files, f, log)
    requires f < |files| && ContentReadable(e, backend, idx, files[f].content)
    ensures AllFit(Concat(e, backend, idx, files[f].content), f, log)
  {
    hide PlainAt;
    hide FileWrites;
    hide Fits;
    hide Concat;
    hide FileWritten;
    var content := files[f].content;
    forall j | 0 <= j < |log| && log[j].file == f ensures Fits(Concat(e, backend, idx, content), log[j]) {
      WrittenOnce(e, backend, idx, files, f, log, log[j]);
      var ws := FileWrites(e, backend, idx, f, content);
      assert log[j] in multiset(log) && log[j] in multiset(ws);
      var k :| 0 <= k < |ws| && ws[k] == log[j];
      FileWriteFits(e, backend, idx, f, content, k);
    }
  }

  /** A byte of the file is written by the write of its blob. */
  lemma ByteReached(e: Env, backend: map<Id, seq<byte>>, idx: Lookup, files: seq<FileInfo>, f: nat, log: seq<Write>,
                    c: seq<byte>, p: nat)
    requires e.key.Sized() && IndexOk(idx) && FileWritten(e, backend, idx, files, f, log)
    requires f < |files| && ContentReadable(e, backend, idx, files[f].content)
    requires var target := Concat(e, backend, idx, files[f].content);
             p < |target| && forall k :: 0 <= k < |log| && log[k].file == f ==> Reached(target, c, log[k])
    ensures p < |c| && c[p] == Concat(e, backend, idx, files[f].content)[p]
  {
    hide PlainAt;
    hide FileWrites;
    hide Concat;
    hide FileWritten;
    hide End;
    var content := files[f].content;
    ConcatLength(e, backend, idx, content);
    var k := BlobAt(e, backend, idx, content, p);
    var ws := FileWrites(e, backend, idx, f, content);
    WrittenOnce(e, backend, idx, files, f, log, ws[k]);
    assert ws[k] in multiset(ws) && ws[k] in multiset(log);
    var j :| 0 <= j < |log| && log[j] == ws[k];
    ReachedAt(Concat(e, backend, idx, content), c, log[j], p);
  }

  lemma ReachedAt(target: seq<byte>, c: seq<byte>, w: Write, p: nat)
    requires Reached(target, c, w) && w.offset <= p < w.offset + |w.data| && p < |target|
    ensures p < |c| && c[p] == target[p]
  {
  }

  /**
   Whatever the order in which the blobs were written, the file ends as the
   concatenation of its blobs exactly if it did not start out longer.
   */
  lemma RestoredFile(e: Env, backend: map<Id, seq<byte>>, idx: Lookup, files: seq<FileInfo>, f: nat, log: seq<Write>,
                     c: seq<byte>)
    requires e.key.Sized() && IndexOk(idx) && FileWritten(e, backend, idx, files, f, log)
    requires f < |files| && ContentReadable(e, backend, idx, files[f].content)
    ensures Applied(c, f, log) == Concat(e, backend, idx, files[f].content)
            <==> |c| <= |Concat(e, backend, idx, files[f].content)|
  {
    hide Applied;
    hide Concat;
    hide FileWritten;
    hide ContentReadable;
    hide Reached;
    hide AllFit;
    var target, result := Concat(e, backend, idx, files[f].content), Applied(c, f, log);
    AppliedGrows(c, f, log);
    if |c| <= |target| {
      LogFits(e, backend, idx, files, f, log);
      AppliedAgrees(target, c, f, log);
      forall p | 0 <= p < |target| ensures p < |result| && result[p] == target[p] {
        ByteReached(e, backend, idx, files, f, log, result, p);
      }
      if target != [] {
        ByteReached(e, backend, idx, files, f, log, result, |target| - 1);
      }
      assert result == target;
    }
  }

  /**
   The first writer creates the file with its declared size, filled with zeros, or
   empty where that is not supported.  So the file ends as the concatenation of its
   blobs exactly if the declared size is not above the indexed one, or if it could
   not be preallocated.
   */
  lemma RestoredBySize(e: Env, backend: map<Id, seq<byte>>, idx: Lookup, files: seq<FileInfo>, f: nat, log: seq<Write>,
                       preallocated: bool)
    requires e.key.Sized() && IndexOk(idx) && FileWritten(e, backend, idx, files, f, log)
    requires f < |files| && ContentReadable(e, backend, idx, files[f].content)
    ensures AllKnown(idx, files[f].content)
    ensures Applied(NewFile(files[f].size, preallocated), f, log) == Concat(e, backend, idx, files[f].content)
            <==> preallocated ==> files[f].size <= End(idx, files[f].content)
  {
    hide Applied;
    hide Concat;
    hide FileWritten;
    hide ContentReadable;
    hide End;
    ConcatLength(e, backend, idx, files[f].content);
    RestoredFile(e, backend, idx, files, f, log, NewFile(files[f].size, preallocated));
  }
}
