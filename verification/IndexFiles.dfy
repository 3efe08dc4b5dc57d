/**
 Writing the whole master index to index files, and reading index files back.
 */
module IndexFiles {
  import opened Blobs
  import opened IndexMaps
  import opened PackLists
  import opened Indexes
  import opened MasterIndexes

  // ---------------------------------------------------------------- counting

  /** How often a packed blob is listed in some index files. */
  ghost function InFiles(files: seq<JsonIndex>, pb: PackedBlob): nat {
    if files == [] then 0
    else InFiles(files[..|files| - 1], pb) + Occurrences(files[|files| - 1].packs, pb)
  }

  /** How often a packed blob is in an index, leaving out the blacklisted packs of final ones. */
  ghost function KeptIn(s: Snapshot, pb: PackedBlob, blacklist: set<Id>): nat {
    if s.final && pb.packId in blacklist then 0 else multiset(s.Of(pb.blob.handle.tpe))[pb]
  }

  ghost function Kept(view: seq<Snapshot>, pb: PackedBlob, blacklist: set<Id>): nat {
    if view == [] then 0
    else Kept(view[..|view| - 1], pb, blacklist) + KeptIn(view[|view| - 1], pb, blacklist)
  }

  ghost function Superseded(files: seq<JsonIndex>): set<Id> {
    set f, id | f in files && id in f.supersedes :: id
  }

  function Ids(s: seq<Id>): set<Id> {
    set id | id in s
  }

  ghost predicate AllDescribable(view: seq<Snapshot>) {
    forall i, t, pb :: 0 <= i < |view| && pb in view[i].Of(t) ==> Describable(pb)
  }

  /** The file holds exactly what the index knows. */
  ghost predicate Describes(f: JsonIndex, s: Snapshot) {
    ListFits(f.packs) && forall pb :: Occurrences(f.packs, pb) == multiset(s.Of(pb.blob.handle.tpe))[pb]
  }

  ghost predicate AllDescribed(files: seq<JsonIndex>, snapshots: seq<Snapshot>) {
    |files| == |snapshots| && forall k :: 0 <= k < |files| ==> Describes(files[k], snapshots[k])
  }

  // ---------------------------------------------------------------- invariant

  /** The files and the index under construction hold what is listed in `all`, and only describable blobs. */
  ghost predicate Covers(files: seq<JsonIndex>, x: Index, all: seq<PackBlobs>)
    requires x.Valid()
    reads x, x.Repr
  {
    && (forall pb: PackedBlob ::
          InFiles(files, pb) + multiset(x.Content(pb.blob.handle.tpe))[pb] == Occurrences(all, pb))
    && (forall pb :: Occurrences(all, pb) > 0 ==> Describable(pb))
  }

  /** Writes a finished index to a file. */
  method Emit(x: Index, files: seq<JsonIndex>, ghost all: seq<PackBlobs>) returns (files': seq<JsonIndex>)
    requires x.Valid() && Covers(files, x, all)
    modifies x`final
    ensures x.Valid() && |files'| == |files| + 1 && files'[..|files|] == files
    ensures files'[|files|].supersedes == x.supersedes && ListFits(files'[|files|].packs)
    ensures forall pb :: InFiles(files', pb) == Occurrences(all, pb)
  {
    hide Index.Valid;
    hide Index.Content;
    x.Finalize();
    AllPlain(files, x, all);
    var r := x.Encode();
    files' := files + [r.value];
    forall pb ensures InFiles(files', pb) == Occurrences(all, pb) {
      assert files'[..|files|] == files;
    }
  }

  lemma Plain(files: seq<JsonIndex>, x: Index, all: seq<PackBlobs>, t: BlobType, pb: PackedBlob)
    requires x.Valid() && Covers(files, x, all) && pb in x.Content(t)
    ensures Describable(pb) && pb.blob.handle.tpe == t
  {
    hide Index.Valid;
    hide Index.Content;
    assert multiset(x.Content(t))[pb] > 0;
    if pb.blob.handle.tpe != t {
      x.ContentTyped(t, pb);
    }
  }

  lemma AllPlain(files: seq<JsonIndex>, x: Index, all: seq<PackBlobs>)
    requires x.Valid() && Covers(files, x, all)
    ensures x.Content(InvalidBlob) == [] && forall t :: x.NoNullPack(t)
  {
    hide Index.Valid;
    hide Index.Content;
    forall t ensures x.NoNullPack(t) {
      forall pb | pb in x.Content(t) ensures pb.packId != NullId() { Plain(files, x, all, t, pb); }
    }
    forall pb | pb in x.Content(InvalidBlob) ensures false { Plain(files, x, all, InvalidBlob, pb); }
    SomeMember(x.Content(InvalidBlob));
  }

  lemma SomeMember(pbs: seq<PackedBlob>)
    ensures pbs != [] ==> exists pb :: pb in pbs
  {
    if pbs != [] { assert pbs[0] in pbs; }
  }

  /** Stores one group in the index under construction. */
  method StoreGroup(x: Index, p: PackBlobs, ghost files: seq<JsonIndex>, ghost all: seq<PackBlobs>)
    requires x.Valid() && !x.final && Covers(files, x, all) && AllFit(p.blobs)
    requires forall pb :: Listed(p, pb) > 0 ==> Describable(pb)
    modifies x.Repr
    ensures x.Valid() && !x.final && Covers(files, x, all + [p])
    ensures fresh(x.Repr - old(x.Repr)) && x.supersedes == old(x.supersedes)
  {
    hide Index.Valid;
    hide Index.Content;
    x.StorePack(p.id, p.blobs);
    forall pb: PackedBlob
      ensures multiset(x.Content(pb.blob.handle.tpe))[pb] ==
              old(multiset(x.Content(pb.blob.handle.tpe))[pb]) + Listed(p, pb)
      ensures Occurrences(all + [p], pb) == Occurrences(all, pb) + Listed(p, pb)
    {
      OfTypeCount(p.blobs, p.id, pb);
      OccurrencesAppend(all, p, pb);
    }
  }

  /** Stores one group, and writes the index under construction to a file if it is full. */
  method Append(x: Index, p: PackBlobs, files: seq<JsonIndex>, full: bool, ghost all: seq<PackBlobs>, sum64: Id -> nat)
    returns (x': Index, files': seq<JsonIndex>)
    requires x.Valid() && !x.final && Covers(files, x, all) && AllFit(p.blobs)
    requires forall pb :: Listed(p, pb) > 0 ==> Describable(pb)
    requires Decodable(files)
    modifies x.Repr
    ensures x'.Valid() && !x'.final && Covers(files', x', all + [p])
    ensures fresh(x'.Repr - old(x.Repr))
    ensures Superseded(files') + Ids(x'.supersedes) == Superseded(files) + Ids(old(x.supersedes))
    ensures Decodable(files')
  {
    hide Index.Valid;
    hide Index.Content;
    hide ListFits;
    x', files' := x, files;
    StoreGroup(x, p, files, all);
    if full {
      files' := Emit(x, files, all + [p]);
      SupersededAppend(files, files'[|files|]);
      x' := new Index(sum64);
      assert files' == files + [files'[|files|]];
    }
  }

  ghost predicate Decodable(files: seq<JsonIndex>) {
    forall i :: 0 <= i < |files| ==> ListFits(files[i].packs)
  }

  lemma SupersededAppend(files: seq<JsonIndex>, f: JsonIndex)
    ensures Superseded(files + [f]) == Superseded(files) + Ids(f.supersedes)
  {
    assert f in files + [f];
    assert forall g :: g in files ==> g in files + [f];
  }

  /** Stores all groups of one index. */
  method AppendAll(x: Index, ps: seq<PackBlobs>, files: seq<JsonIndex>, full: nat -> bool, ghost all: seq<PackBlobs>,
                   sum64: Id -> nat)
    returns (x': Index, files': seq<JsonIndex>)
    requires x.Valid() && !x.final && Covers(files, x, all) && ListFits(ps)
    requires forall pb :: Occurrences(ps, pb) > 0 ==> Describable(pb)
    requires Decodable(files)
    modifies x.Repr
    ensures x'.Valid() && !x'.final && Covers(files', x', all + ps)
    ensures fresh(x'.Repr - old(x.Repr))
    ensures Superseded(files') + Ids(x'.supersedes) == Superseded(files) + Ids(old(x.supersedes))
    ensures Decodable(files')
  {
    hide Index.Valid;
    hide Covers;
    hide Decodable;
    hide Superseded;
    hide Ids;
    hide AllFit;
    x', files' := x, files;
    assert all + ps[..0] == all;
    for k := 0 to |ps|
      invariant x'.Valid() && !x'.final && Covers(files', x', all + ps[..k])
      invariant fresh(x'.Repr - old(x.Repr))
      invariant Superseded(files') + Ids(x'.supersedes) == Superseded(files) + Ids(old(x.supersedes))
      invariant Decodable(files')
    {
      forall pb | Listed(ps[k], pb) > 0 ensures Describable(pb) { ListedOccurs(ps, k, pb); }
      assert all + ps[..k] + [ps[k]] == all + ps[..k + 1];
      x', files' := Append(x', ps[k], files', full(k), all + ps[..k], sum64);
    }
    assert all + ps[..|ps|] == all + ps;
  }

  lemma {:induction false} ListedOccurs(ps: seq<PackBlobs>, k: nat, pb: PackedBlob)
    requires k < |ps|
    ensures Occurrences(ps, pb) >= Listed(ps[k], pb)
  {
    if k < |ps| - 1 { ListedOccurs(ps[..|ps| - 1], k, pb); }
  }

  // ---------------------------------------------------------------- saving

  lemma KeptStep(view: seq<Snapshot>, i: nat, pb: PackedBlob, blacklist: set<Id>)
    requires i < |view|
    ensures Kept(view[..i + 1], pb, blacklist) == Kept(view[..i], pb, blacklist) + KeptIn(view[i], pb, blacklist)
  {
    assert view[..i + 1][..i] == view[..i];
  }

  lemma FinalIdsStep(view: seq<Snapshot>, i: nat)
    requires i < |view|
    ensures Ids(FinalIds(view[..i + 1])) == Ids(FinalIds(view[..i])) + if view[i].final then Ids(view[i].ids) else {}
  {
    assert view[..i + 1][..i] == view[..i];
  }

  lemma {:induction false} OccurrencesConcat(a: seq<PackBlobs>, b: seq<PackBlobs>, pb: PackedBlob)
    ensures Occurrences(a + b, pb) == Occurrences(a, pb) + Occurrences(b, pb)
  {
    if b == [] {
      assert a + b == a;
    } else {
      OccurrencesConcat(a, b[..|b| - 1], pb);
      assert (a + b)[..|a + b| - 1] == a + b[..|b| - 1];
    }
  }

  /** `all` lists what the first i indexes contribute. */
  ghost predicate Gathered(all: seq<PackBlobs>, view: seq<Snapshot>, i: nat, blacklist: set<Id>) {
    i <= |view| && forall pb :: Occurrences(all, pb) == Kept(view[..i], pb, blacklist)
  }

  lemma GatherMore(all: seq<PackBlobs>, ps: seq<PackBlobs>, view: seq<Snapshot>, i: nat, blacklist: set<Id>)
    requires Gathered(all, view, i, blacklist) && i < |view|
    requires forall pb :: Occurrences(ps, pb) == KeptIn(view[i], pb, blacklist)
    ensures Gathered(all + ps, view, i + 1, blacklist)
  {
    forall pb ensures Occurrences(all + ps, pb) == Kept(view[..i + 1], pb, blacklist) {
      OccurrencesConcat(all, ps, pb);
      KeptStep(view, i, pb, blacklist);
    }
  }

  /** The groups of the i-th index. */
  method Groups(mi: MasterIndex, i: nat, blacklist: set<Id>) returns (ps: seq<PackBlobs>)
    requires mi.Valid() && AllDescribable(mi.view) && i < |mi.idx|
    ensures ListFits(ps)
    ensures forall pb :: Occurrences(ps, pb) == KeptIn(mi.view[i], pb, blacklist)
    ensures forall pb :: Occurrences(ps, pb) > 0 ==> Describable(pb)
  {
    hide MasterIndex.Valid;
    hide Index.Valid;
    hide Index.Content;
    mi.At(i);
    ps := mi.idx[i].EachByPack(blacklist);
    forall pb | Occurrences(ps, pb) > 0 ensures Describable(pb) {
      assert pb in mi.view[i].Of(pb.blob.handle.tpe);
    }
  }

  /** What has been written and is under construction after the first i indexes. */
  ghost predicate Saving(view: seq<Snapshot>, i: nat, blacklist: set<Id>,
                         files: seq<JsonIndex>, x: Index, all: seq<PackBlobs>, obsolete: set<Id>)
    reads x, x.Repr
  {
    && x.Valid() && !x.final && Covers(files, x, all)
    && Gathered(all, view, i, blacklist)
    && Superseded(files) + Ids(x.supersedes) == obsolete == Ids(FinalIds(view[..i]))
    && Decodable(files)
  }

  lemma SaveStart(view: seq<Snapshot>, blacklist: set<Id>, x: Index)
    requires x.Valid() && !x.final && x.supersedes == [] && forall t :: x.Content(t) == []
    ensures Saving(view, 0, blacklist, [], x, [], {})
  {
    hide Index.Valid;
    hide Index.Content;
  }

  /** Adds identifiers to the list of superseded files. */
  method Supersede(x: Index, ids: seq<Id>, ghost files: seq<JsonIndex>, ghost all: seq<PackBlobs>)
    requires x.Valid() && !x.final && Covers(files, x, all)
    modifies x`supersedes
    ensures x.Valid() && Covers(files, x, all)
    ensures Ids(x.supersedes) == Ids(old(x.supersedes)) + Ids(ids)
  {
    hide Index.Valid;
    hide Index.Content;
    var ok := x.AddToSupersedes(ids);
  }

  /** Adds one index to what is saved. */
  method SaveOne(mi: MasterIndex, i: nat, blacklist: set<Id>, full: nat -> bool,
                 x: Index, files: seq<JsonIndex>, ghost all: seq<PackBlobs>, obsolete: set<Id>)
    returns (x': Index, files': seq<JsonIndex>, ghost all': seq<PackBlobs>, obsolete': set<Id>)
    requires mi.Valid() && AllDescribable(mi.view) && i < |mi.idx| && mi.Repr !! x.Repr
    requires Saving(mi.view, i, blacklist, files, x, all, obsolete)
    modifies x.Repr
    ensures Saving(mi.view, i + 1, blacklist, files', x', all', obsolete')
    ensures fresh(x'.Repr - old(x.Repr))
  {
    hide MasterIndex.Valid;
    hide Index.Valid;
    hide Covers;
    hide Decodable;
    hide Gathered;
    hide AllDescribable;
    hide FinalIds;
    hide Superseded;
    mi.At(i);
    FinalIdsStep(mi.view, i);
    obsolete' := obsolete;
    var ps := Groups(mi, i, blacklist);
    GatherMore(all, ps, mi.view, i, blacklist);
    if mi.idx[i].final {
      obsolete' := obsolete' + Ids(mi.idx[i].ids);
      Supersede(x, mi.idx[i].ids, files, all);
    }
    x', files' := AppendAll(x, ps, files, full, all, mi.sum64);
    all' := all + ps;
  }

  /** Writes out what is left. */
  method SaveLast(ghost view: seq<Snapshot>, ghost blacklist: set<Id>, extraObsolete: seq<Id>,
                  x: Index, files: seq<JsonIndex>, ghost all: seq<PackBlobs>, obsolete: set<Id>)
    returns (files': seq<JsonIndex>, obsolete': set<Id>)
    requires Saving(view, |view|, blacklist, files, x, all, obsolete)
    modifies x.Repr
    ensures forall pb :: InFiles(files', pb) == Kept(view, pb, blacklist)
    ensures obsolete' == Superseded(files') == Ids(FinalIds(view)) + Ids(extraObsolete)
    ensures Decodable(files')
  {
    hide Index.Valid;
    hide Covers;
    hide ListFits;
    hide Kept;
    hide FinalIds;
    hide Superseded;
    assert view[..|view|] == view;
    Supersede(x, extraObsolete, files, all);
    obsolete' := obsolete + Ids(extraObsolete);
    files' := Emit(x, files, all);
    assert files' == files + [files'[|files|]];
    SupersededAppend(files, files'[|files|]);
  }

  /**
   Rewrites all indexes as index files, leaving out the blacklisted packs of
   final indexes.  `full` says, for every group stored, whether the index under
   construction counts as full then.
   */
  method Save(mi: MasterIndex, blacklist: set<Id>, extraObsolete: seq<Id>, full: nat -> nat -> bool)
    returns (files: seq<JsonIndex>, obsolete: set<Id>)
    requires mi.Valid() && AllDescribable(mi.view)
    ensures forall pb :: InFiles(files, pb) == Kept(mi.view, pb, blacklist)
    ensures obsolete == Superseded(files) == Ids(FinalIds(mi.view)) + Ids(extraObsolete)
    ensures Decodable(files)
  {
    hide MasterIndex.Valid;
    hide Index.Valid;
    hide Saving;
    var x := new Index(mi.sum64);
    files, obsolete := [], {};
    ghost var all: seq<PackBlobs> := [];
    SaveStart(mi.view, blacklist, x);
    for i := 0 to |mi.idx|
      invariant mi.Valid() && fresh(x.Repr) && mi.Repr !! x.Repr
      invariant Saving(mi.view, i, blacklist, files, x, all, obsolete)
    {
      x, files, all, obsolete := SaveOne(mi, i, blacklist, full(i), x, files, all, obsolete);
    }
    files, obsolete := SaveLast(mi.view, blacklist, extraObsolete, x, files, all, obsolete);
  }

  // ---------------------------------------------------------------- loading

  /** How often a packed blob is known in all. */
  ghost function Total(view: seq<Snapshot>, pb: PackedBlob): nat {
    if view == [] then 0
    else Total(view[..|view| - 1], pb) + multiset(view[|view| - 1].Of(pb.blob.handle.tpe))[pb]
  }

  ghost predicate SameTotals(view: seq<Snapshot>, files: seq<JsonIndex>) {
    forall pb :: Total(view, pb) == InFiles(files, pb)
  }

  lemma TotalsStart(s: Snapshot)
    requires s == EMPTY.(final := true)
    ensures SameTotals([s], [])
  {
    assert [s][..0] == [];
  }

  lemma TotalsStep(view: seq<Snapshot>, s: Snapshot, files: seq<JsonIndex>, f: JsonIndex)
    requires SameTotals(view, files)
    requires forall pb: PackedBlob :: multiset(s.Of(pb.blob.handle.tpe))[pb] == Occurrences(f.packs, pb)
    ensures SameTotals(view + [s], files + [f])
  {
    assert (view + [s])[..|view|] == view && (files + [f])[..|files|] == files;
  }

  /** Decodes index files and enters the indexes into a new master index. */
  method DecodeAll(files: seq<JsonIndex>, names: seq<Id>, sum64: Id -> nat) returns (mi: MasterIndex)
    requires Decodable(files) && |names| == |files|
    ensures mi.Valid() && fresh(mi.Repr) && |mi.view| == |files| + 1
    ensures forall i :: 0 <= i < |mi.view| ==> mi.view[i].final
    ensures SameTotals(mi.view, files)
    ensures mi.view[0] == EMPTY.(final := true) && mi.pendingBlobs == {}
  {
    hide MasterIndex.Valid;
    hide Index.Valid;
    hide Index.Content;
    hide ListFits;
    hide SameTotals;
    mi := new MasterIndex(sum64);
    TotalsStart(mi.view[0]);
    for k := 0 to |files|
      invariant mi.Valid() && fresh(mi.Repr) && |mi.view| == k + 1
      invariant forall i :: 0 <= i < |mi.view| ==> mi.view[i].final
      invariant SameTotals(mi.view, files[..k])
      invariant mi.view[0] == EMPTY.(final := true) && mi.pendingBlobs == {}
    {
      var x := Decode(files[k], names[k], sum64);
      ghost var s := Snapshot(x.final, x.Content(InvalidBlob), x.Content(DataBlob), x.Content(TreeBlob), x.ids);
      assert files[..k + 1] == files[..k] + [files[k]];
      TotalsStep(mi.view, s, files[..k], files[k]);
      mi.Insert(x, s);
    }
    assert files[..|files|] == files;
  }

  /** What was saved is what is read back: every kept entry, as often as it was there. */
  method SaveAndDecode(mi: MasterIndex, blacklist: set<Id>, extraObsolete: seq<Id>, full: nat -> nat -> bool,
                       names: nat -> Id)
    returns (again: MasterIndex)
    requires mi.Valid() && AllDescribable(mi.view)
    ensures again.Valid() && fresh(again.Repr)
    ensures forall pb :: Total(again.view, pb) == Kept(mi.view, pb, blacklist)
  {
    hide MasterIndex.Valid;
    hide Total;
    hide Kept;
    var files, obsolete := Save(mi, blacklist, extraObsolete, full);
    again := DecodeAll(files, seq(|files|, i requires 0 <= i < |files| => names(i)), mi.sum64);
  }

  /** Loads a repository's index files; equal entries of different files are merged. */
  method LoadIndex(files: seq<JsonIndex>, names: seq<Id>, sum64: Id -> nat) returns (mi: MasterIndex)
    requires Decodable(files) && |names| == |files|
    ensures mi.Valid() && fresh(mi.Repr) && |mi.view| == 1
    ensures forall pb: PackedBlob ::
              multiset(mi.view[0].Of(pb.blob.handle.tpe))[pb] == if InFiles(files, pb) > 0 then 1 else 0
  {
    hide MasterIndex.Valid;
    mi := DecodeAll(files, names, sum64);
    ghost var before := mi.view;
    ghost var from := mi.MergeFinalIndexes();
    NoneOpen(before[1..]);
    forall pb: PackedBlob
      ensures multiset(mi.view[0].Of(pb.blob.handle.tpe))[pb] == if InFiles(files, pb) > 0 then 1 else 0
    {
      TotalFinal(before, pb);
    }
  }

  lemma {:induction false} NoneOpen(view: seq<Snapshot>)
    requires forall i :: 0 <= i < |view| ==> view[i].final
    ensures NonFinal(view) == []
  {
    if view != [] { NoneOpen(view[..|view| - 1]); }
  }

  lemma TotalFinal(view: seq<Snapshot>, pb: PackedBlob)
    requires view != [] && view[0] == EMPTY.(final := true)
    requires forall i :: 0 <= i < |view| ==> view[i].final
    ensures Total(view, pb) > 0 <==> pb in FinalContent(view[1..], pb.blob.handle.tpe)
    decreases |view|
  {
    if |view| == 1 {
      assert view[..0] == [];
    } else {
      TotalFinal(view[..|view| - 1], pb);
      assert view[1..][..|view| - 2] == view[..|view| - 1][1..];
    }
  }
}
