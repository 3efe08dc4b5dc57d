/**
 Repacking inside a run of the repository: the packs that are repacked were written
 in the run, what is saved again goes into new packs, and then the old packs are
 left out of the index and removed.
 */
module RepackRuns {
  import opened Blobs
  import opened PackLists
  import opened Indexes
  import opened MasterIndexes
  import opened Crypto
  import opened Packs
  import opened SaveProtocol
  import opened Repositories
  import opened Restarts
  import IndexFiles
  import R = Repacking

  ghost function WrittenPacks(s: State): set<Id> {
    set i | 0 <= i < |s.written| :: s.written[i].id
  }

  // ---------------------------------------------------------------- written packs can be repacked

  /** A blob that a written pack lists is read as the plaintext behind its handle. */
  lemma WrittenRead(e: Env, s: State, packs: set<Id>, file: seq<byte>, b: Blob)
    requires Inv(e, s) && AllListable(e, s) && packs <= WrittenPacks(s) && R.FromPack(e, s.backend, packs, file, b)
    ensures b.handle in s.contents && R.ReadBlob(e, file, b) == Some(s.contents[b.handle])
    ensures Storable(b.handle.tpe) && b.length < UINT32_RANGE
    ensures e.key.Sized() ==> |s.contents[b.handle]| + EXTENSION < UINT32_RANGE
  {
    hide LookedUp;
    hide Listing;
    hide OpenOk;
    hide CallersOk;
    hide Conserved;
    hide Accounted;
    hide FilesMatch;
    hide CallerListable;
    var id :| id in packs && id in s.backend && s.backend[id] == file
              && R.Listed(e, file).Some? && b in R.Listed(e, file).value;
    var i :| 0 <= i < |s.written| && s.written[i].id == id;
    assert Listable(e, s.backend, s.written[i].id, s.written[i].blobs);
    assert PackKnown(s.view, s.written[i]);
    assert Known(s.view, PackedBlob(b, id));
    assert Readable(e, s.backend, s.contents, PackedBlob(b, id));
    if e.key.Sized() {
      OpenedLength(e.key, file[b.offset..b.offset + b.length]);
    }
  }

  lemma OpenedLength(key: Key, buf: seq<byte>)
    requires key.Sized() && |buf| >= NONCE_SIZE
    ensures key.Opened(buf).Some? ==> |buf| == |key.Opened(buf).value| + EXTENSION
  {
  }

  /** So a repack of written packs succeeds. */
  lemma WrittenIntact(e: Env, s: State, packs: set<Id>, keep: set<BlobHandle>)
    requires Inv(e, s) && AllListable(e, s) && packs <= WrittenPacks(s)
    ensures R.Intact(e, s.backend, packs, keep)
  {
    hide Inv;
    hide Listing;
    hide CallerListable;
    hide R.FromPack;
    hide R.ReadBlob;
    forall id | id in packs
      ensures id in s.backend && e.hash(s.backend[id]) == id && R.Listed(e, s.backend[id]).Some?
    {
      var i :| 0 <= i < |s.written| && s.written[i].id == id;
      assert Listable(e, s.backend, s.written[i].id, s.written[i].blobs);
    }
    forall file, b | R.FromPack(e, s.backend, packs, file, b) && b.handle in keep
      ensures R.ReadBlob(e, file, b).Some?
    {
      WrittenRead(e, s, packs, file, b);
    }
  }

  /** What a repack saves can be saved, also after other blobs were: it is what is behind the handle already. */
  lemma SaveableAgain(e: Env, s: State, packs: set<Id>, x: R.Save, contents: map<BlobHandle, seq<byte>>)
    requires Inv(e, s) && AllListable(e, s) && e.key.Sized() && packs <= WrittenPacks(s)
    requires R.SaveOk(e, s.backend, packs, x) && Extends(s.contents, contents)
    ensures x.h in s.contents && x.plain == s.contents[x.h]
    ensures Saveable(e, contents, x.h.tpe, x.h.id, x.plain) && SaveId(e, x.h.id, x.plain) == x.h.id
  {
    hide Inv;
    hide AllListable;
    hide R.FromPack;
    hide R.ReadBlob;
    hide Key.Sized;
    var file, b :| R.FromPack(e, s.backend, packs, file, b) && b.handle == x.h
                   && R.ReadBlob(e, file, b) == Some(x.plain);
    WrittenRead(e, s, packs, file, b);
  }

  /** Repacks packs that were written in a run; this cannot fail, and gives what is to be saved again. */
  method RepackWritten(e: Env, ghost run: seq<State>, ghost acts: seq<Action>, ghost i: nat,
                       backend: map<Id, seq<byte>>, packs: set<Id>, keep: set<BlobHandle>, numWorkers: nat)
    returns (saved: seq<R.Save>)
    requires IsRun(e, run, acts) && i <= |acts| && e.key.Sized() && backend == run[i].backend
    requires packs <= WrittenPacks(run[i]) && numWorkers > 0
    ensures R.SavedOnce(e, backend, packs, keep, saved)
    ensures forall k, contents :: 0 <= k < |saved| && Extends(run[i].contents, contents) ==>
              Saveable(e, contents, saved[k].h.tpe, saved[k].h.id, saved[k].plain)
  {
    hide Inv;
    hide Initial;
    hide Steps;
    hide AllListable;
    hide Saveable;
    hide R.Intact;
    hide R.SavedOnce;
    hide R.LeftOver;
    hide R.SaveOk;
    hide Key.Sized;
    RunInv(e, run, acts, i);
    RunListable(e, run, acts, i);
    WrittenIntact(e, run[i], packs, keep);
    var ok, s := R.Repack(e, backend, packs, keep, numWorkers);
    saved := s.saved;
    forall k, contents | 0 <= k < |saved| && Extends(run[i].contents, contents)
      ensures Saveable(e, contents, saved[k].h.tpe, saved[k].h.id, saved[k].plain)
    {
      SaveableAgain(e, run[i], packs, saved[k], contents);
    }
  }

  // ---------------------------------------------------------------- what is saved again is in a new pack

  /** No new pack gets one of these names. */
  ghost predicate Avoids(packs: set<Id>, a: Action, s1: State) {
    a.Upload? && a.c < |s1.callers| && s1.callers[a.c].Storing? ==> s1.callers[a.c].id !in packs
  }

  /** The packs recorded after the first n, and those about to be, have other names. */
  ghost predicate NewOnes(s: State, n: nat, packs: set<Id>) {
    && n <= |s.written| && (forall m :: n <= m < |s.written| ==> s.written[m].id !in packs)
    && forall c :: 0 <= c < |s.callers| && s.callers[c].Storing? ==> s.callers[c].id !in packs
  }

  /** Only a record step adds to the recorded packs. */
  lemma StepWritten(e: Env, s: State, a: Action, s1: State)
    requires Steps(e, s, a, s1)
    ensures a.Record? ==> a.c < |s.callers| && s.callers[a.c].Storing?
    ensures s1.written == s.written + if a.Record? then [Written(s.callers[a.c].id, s.callers[a.c].blobs)] else []
  {
    hide Has;
    hide Known;
    hide Stored;
    hide Taken;
    hide File;
    hide CanUpload;
    hide MergedView;
    hide NewlyClosed;
    hide Saveable;
  }

  /** One caller moves, and if it stores a pack now, it uploaded it. */
  ghost predicate OneMoves(s: State, s1: State, c: nat, uploads: bool) {
    && c < |s.callers| == |s1.callers| && (s1.callers[c].Storing? ==> uploads)
    && forall d :: 0 <= d < |s.callers| && d != c ==> s1.callers[d] == s.callers[d]
  }

  lemma SaveMoves(e: Env, s: State, c: nat, h: BlobHandle, bytes: seq<byte>, storeDuplicate: bool, nonce: seq<byte>)
    requires c < |s.callers|
    ensures s.callers[c].Idle? ==> OneMoves(s, Begun(s, c, h, bytes, storeDuplicate), c, false)
    ensures s.callers[c].Claiming? ==> OneMoves(s, Found(s, c), c, false)
    ensures s.callers[c].Packing? ==> OneMoves(s, Added(e, s, c, nonce), c, false)
  {
    hide Has;
    hide Taken;
    hide Appended;
  }

  lemma CloseMoves(e: Env, s: State, c: nat, t: BlobType, nonce: seq<byte>)
    requires c < |s.callers|
    ensures s.callers[c].Closing? ==> OneMoves(s, PutBack(s, c), c, false)
    ensures Open(s, t) != [] ==> OneMoves(s, Flushed(s, c, t), c, false)
    ensures CanUpload(e, s, c, nonce) ==> OneMoves(s, Uploaded(e, s, c, nonce), c, true)
    ensures s.callers[c].Storing? ==> OneMoves(s, Recorded(s, c), c, false)
  {
    hide File;
    hide Stored;
  }

  /** Only an upload makes a caller store a pack. */
  lemma StepStoring(e: Env, s: State, a: Action, s1: State, c: nat)
    requires Steps(e, s, a, s1) && c < |s1.callers| && s1.callers[c].Storing?
    ensures c < |s.callers| && (s1.callers[c] == s.callers[c] || (a.Upload? && a.c == c))
  {
    hide Begun;
    hide Found;
    hide Added;
    hide PutBack;
    hide Flushed;
    hide CanUpload;
    hide Uploaded;
    hide Recorded;
    hide Known;
    hide MergedView;
    hide NewlyClosed;
    hide Saveable;
    match a
    case Begin(d, t, id, bytes, dup) => SaveMoves(e, s, d, BlobHandle(SaveId(e, id, bytes), t), bytes, dup, []);
    case Find(d) => SaveMoves(e, s, d, BlobHandle(NullId(), DataBlob), [], false, []);
    case Add(d, nonce) => SaveMoves(e, s, d, BlobHandle(NullId(), DataBlob), [], false, nonce);
    case Put(d) => CloseMoves(e, s, d, DataBlob, []);
    case Flush(d, t) => CloseMoves(e, s, d, t, []);
    case Upload(d, nonce) =>
      CanUploadCaller(e, s, d, nonce);
      CloseMoves(e, s, d, DataBlob, nonce);
    case Record(d) => CloseMoves(e, s, d, DataBlob, []);
    case _ =>
  }

  lemma CanUploadCaller(e: Env, s: State, c: nat, nonce: seq<byte>)
    requires CanUpload(e, s, c, nonce)
    ensures c < |s.callers|
  {
  }

  lemma StepNew(e: Env, s: State, a: Action, s1: State, n: nat, packs: set<Id>)
    requires Steps(e, s, a, s1) && NewOnes(s, n, packs) && Avoids(packs, a, s1)
    ensures NewOnes(s1, n, packs) && s.written <= s1.written
  {
    hide Steps;
    StepWritten(e, s, a, s1);
    forall c | 0 <= c < |s1.callers| && s1.callers[c].Storing? ensures s1.callers[c].id !in packs {
      StepStoring(e, s, a, s1, c);
    }
  }

  lemma {:induction false} RunNew(e: Env, run: seq<State>, acts: seq<Action>, i: nat, j: nat, packs: set<Id>)
    requires IsRun(e, run, acts) && i <= j <= |acts| && Quiet(run[i])
    requires forall k :: i <= k < j ==> Avoids(packs, acts[k], run[k + 1])
    ensures NewOnes(run[j], |run[i].written|, packs) && run[i].written <= run[j].written
  {
    hide Initial;
    hide Steps;
    hide Avoids;
    if i < j {
      RunNew(e, run, acts, i, j - 1, packs);
      assert Steps(e, run[j - 1], acts[j - 1], run[j - 1 + 1]);
      assert Avoids(packs, acts[j - 1], run[j - 1 + 1]);
      StepNew(e, run[j - 1], acts[j - 1], run[j], |run[i].written|, packs);
    }
  }

  ghost function Saved(s: State, h: BlobHandle): nat {
    s.first[h] + s.again[h]
  }

  ghost predicate SavesAgain(e: Env, a: Action, h: BlobHandle) {
    Saves(e, a, h) && a.storeDuplicate
  }

  lemma StepSaved(e: Env, s: State, a: Action, s1: State, h: BlobHandle)
    requires Steps(e, s, a, s1)
    ensures Saved(s1, h) >= Saved(s, h) + One(SavesAgain(e, a, h))
  {
    hide Has;
    hide Known;
    hide Stored;
    hide Taken;
    hide CanUpload;
    hide Uploaded;
    hide MergedView;
    hide NewlyClosed;
    hide Saveable;
    StepFrame(e, s, a, s1);
  }

  lemma {:induction false} RunSaved(e: Env, run: seq<State>, acts: seq<Action>, i: nat, j: nat, h: BlobHandle)
    requires IsRun(e, run, acts) && i <= j <= |acts|
    ensures Saved(run[i], h) <= Saved(run[j], h)
  {
    hide Initial;
    hide Steps;
    hide SavesAgain;
    hide Saved;
    if i < j {
      RunSaved(e, run, acts, i, j - 1, h);
      assert Steps(e, run[j - 1], acts[j - 1], run[j - 1 + 1]);
      StepSaved(e, run[j - 1], acts[j - 1], run[j], h);
    }
  }

  /** In a quiet state, every save is in a recorded pack. */
  lemma QuietWritten(e: Env, s: State, h: BlobHandle)
    requires Inv(e, s) && Quiet(s)
    ensures Saved(s, h) == WrittenCount(s.written, h)
  {
    hide Healthy;
    hide Accounted;
    hide FilesMatch;
    hide CallersCount;
    hide WrittenCount;
    assert Conserved(s, h);
    IdleCount(s.callers, h);
  }

  lemma {:induction false} CountedLater(a: seq<Written>, b: seq<Written>, h: BlobHandle) returns (m: nat)
    requires a <= b && WrittenCount(a, h) < WrittenCount(b, h)
    ensures |a| <= m < |b| && BlobCount(b[m].blobs, h) > 0
  {
    hide BlobCount;
    m := |b| - 1;
    if BlobCount(b[m].blobs, h) == 0 {
      assert |a| == |b| ==> a == b;
      m := CountedLater(a, b[..m], h);
    } else {
      assert |a| == |b| ==> a == b;
    }
  }

  /** A blob that was saved again between two quiet states has a location in a pack with a new name. */
  lemma CopyElsewhere(e: Env, run: seq<State>, acts: seq<Action>, i: nat, k: nat, j: nat, packs: set<Id>,
                      h: BlobHandle) returns (pb: PackedBlob)
    requires IsRun(e, run, acts) && i <= k < j <= |acts| && Quiet(run[i]) && Quiet(run[j])
    requires SavesAgain(e, acts[k], h)
    requires forall l :: i <= l < j ==> Avoids(packs, acts[l], run[l + 1])
    ensures Known(run[j].view, pb) && pb.blob.handle == h && pb.packId !in packs
  {
    hide Initial;
    hide Steps;
    hide SavesAgain;
    hide Saved;
    hide Inv;
    hide Quiet;
    hide Avoids;
    hide Known;
    hide WrittenCount;
    hide BlobCount;
    RunSaved(e, run, acts, i, k, h);
    assert Steps(e, run[k], acts[k], run[k + 1]);
    StepSaved(e, run[k], acts[k], run[k + 1], h);
    RunSaved(e, run, acts, k + 1, j, h);
    RunInv(e, run, acts, i);
    RunInv(e, run, acts, j);
    QuietWritten(e, run[i], h);
    QuietWritten(e, run[j], h);
    RunNew(e, run, acts, i, j, packs);
    var m := CountedLater(run[i].written, run[j].written, h);
    var b := Counted(run[j].written[m].blobs, h);
    pb := PackedBlob(b, run[j].written[m].id);
    WrittenKnown(e, run[j], m, b);
  }

  lemma WrittenKnown(e: Env, s: State, m: nat, b: Blob)
    requires Inv(e, s) && m < |s.written| && b in s.written[m].blobs
    ensures Known(s.view, PackedBlob(b, s.written[m].id))
  {
    hide OpenOk;
    hide CallersOk;
    hide ViewOk;
    hide Conserved;
    hide Accounted;
    hide FilesMatch;
    hide Known;
    assert PackKnown(s.view, s.written[m]);
  }

  // ---------------------------------------------------------------- leaving out and removing the old packs

  /** Exactly the locations in other packs are still known. */
  ghost predicate Pruned(view: seq<Snapshot>, packs: set<Id>, view1: seq<Snapshot>) {
    forall pb :: Known(view1, pb) <==> Known(view, pb) && pb.packId !in packs
  }

  ghost predicate LocatedElsewhere(view: seq<Snapshot>, packs: set<Id>, h: BlobHandle) {
    exists pb :: Known(view, pb) && pb.blob.handle == h && pb.packId !in packs
  }

  /** The repository without the packs, and with an index that does not know them. */
  function After(s: State, packs: set<Id>, view1: seq<Snapshot>): State {
    s.(view := view1, backend := s.backend - packs)
  }

  /** Then a blob can be loaded exactly if it was located in some other pack. */
  lemma PrunedLoadable(e: Env, s: State, packs: set<Id>, view1: seq<Snapshot>, h: BlobHandle)
    requires Inv(e, s) && Pruned(s.view, packs, view1)
    ensures LocatedElsewhere(s.view, packs, h) <==> Indexed(view1, h)
    ensures Indexed(view1, h) ==> h in s.contents && Loadable(e, After(s, packs, view1), h, s.contents[h])
  {
    hide LookedUp;
    hide Readable;
    hide OpenOk;
    hide CallersOk;
    hide WrittenOk;
    hide Conserved;
    hide Accounted;
    hide FilesMatch;
    IndexedKnown(view1, h);
    forall pb | pb in LookedUp(view1, h)
      ensures pb.blob.handle == h && h in s.contents && Readable(e, s.backend - packs, s.contents, pb)
    {
      LookedUpMember(view1, h, pb);
      assert Known(view1, pb) && Known(s.view, pb);
      ReadableWithout(e, s, packs, pb);
    }
    if Indexed(view1, h) {
      var pb :| Known(view1, pb) && pb.blob.handle == h;
    }
  }

  lemma ReadableWithout(e: Env, s: State, packs: set<Id>, pb: PackedBlob)
    requires Readable(e, s.backend, s.contents, pb) && pb.packId !in packs
    ensures pb.blob.handle in s.contents && Readable(e, s.backend - packs, s.contents, pb)
  {
  }

  /** From final indexes, an index save leaves out exactly the locations in the given packs. */
  lemma {:induction false} KeptElsewhere(view: seq<Snapshot>, packs: set<Id>, pb: PackedBlob)
    requires AllFinal(view)
    ensures IndexFiles.Kept(view, pb, packs) > 0 <==> Inside(view, pb) && pb.packId !in packs
  {
    if view != [] {
      var last := |view| - 1;
      KeptElsewhere(view[..last], packs, pb);
      assert view == view[..last] + [view[last]];
      FinalConcat(view[..last], [view[last]], pb);
      FinalSingle(view[last], pb);
    }
  }

  lemma SavedPruned(view: seq<Snapshot>, packs: set<Id>, files: seq<JsonIndex>, view1: seq<Snapshot>)
    requires AllFinal(view) && Reloaded(view1, files)
    requires forall pb :: IndexFiles.InFiles(files, pb) == IndexFiles.Kept(view, pb, packs)
    ensures Pruned(view, packs, view1)
  {
    hide LookedUp;
    hide IndexFiles.Kept;
    hide IndexFiles.InFiles;
    forall pb ensures Known(view1, pb) <==> Known(view, pb) && pb.packId !in packs {
      KeptElsewhere(view, packs, pb);
      LookedUpMember(view, pb.blob.handle, pb);
    }
  }

  lemma ViewDescribable(e: Env, s: State, mi: MasterIndex)
    requires Inv(e, s) && mi.Valid() && mi.view == s.view
    ensures IndexFiles.AllDescribable(mi.view)
  {
    hide Inv;
    hide Index.Valid;
    hide Index.Content;
    hide Snapshot.Of;
    hide MasterIndex.Valid;
    forall i, t, pb | 0 <= i < |mi.view| && pb in mi.view[i].Of(t) ensures Describable(pb) {
      mi.At(i);
      assert multiset(mi.idx[i].Content(t))[pb] > 0;
      if pb.blob.handle.tpe != t {
        mi.idx[i].ContentTyped(t, pb);
      }
      InvDescribable(e, s, i, t, pb);
    }
  }

  /** Saves the index without some packs, and loads a blob from what is left after a restart. */
  method LoadWithout(e: Env, ghost s: State, mi: MasterIndex, packs: set<Id>, extraObsolete: seq<Id>,
                     full: nat -> nat -> bool, names: nat -> Id, sum64: Id -> nat, backend: map<Id, seq<byte>>,
                     h: BlobHandle, cache: Option<Id -> bool>)
    returns (r: Loaded)
    requires Inv(e, s) && AllFinal(s.view) && mi.Valid() && mi.view == s.view && backend == s.backend
    requires LocatedElsewhere(s.view, packs, h)
    ensures h in s.contents && r == Plain(s.contents[h])
  {
    hide Inv;
    hide AllFinal;
    hide LocatedElsewhere;
    hide Pruned;
    hide LookedUp;
    hide Loadable;
    hide AllYield;
    hide MasterIndex.Valid;
    hide IndexFiles.Kept;
    hide IndexFiles.AllDescribable;
    ViewDescribable(e, s, mi);
    var files, _ := IndexFiles.Save(mi, packs, extraObsolete, full);
    var again := IndexFiles.LoadIndex(files, seq(|files|, k requires 0 <= k < |files| => names(k)), sum64);
    LoadedReloaded(again, files);
    SavedPruned(s.view, packs, files, again.view);
    PrunedLoadable(e, s, packs, again.view, h);
    LoadableYields(e, After(s, packs, again.view), h, s.contents[h]);
    var pbs := again.Lookup(h);
    assert pbs != [];
    r := LoadAny(e, backend - packs, h.id, cache, pbs);
  }

  // ---------------------------------------------------------------- the whole repack

  /** Everything that the repack was to save has been saved, duplicate or not. */
  ghost predicate Carried(e: Env, acts: seq<Action>, i: nat, j: nat, saved: seq<R.Save>)
    requires i <= j <= |acts|
  {
    forall x :: x in saved ==> exists k :: i <= k < j && SavesAgain(e, acts[k], x.h)
  }

  lemma {:induction false} SomeSave(saved: seq<R.Save>, h: BlobHandle) returns (x: R.Save)
    requires R.SavedCount(saved, h) > 0
    ensures x in saved && x.h == h
  {
    x := saved[|saved| - 1];
    if x.h != h {
      x := SomeSave(saved[..|saved| - 1], h);
    }
  }

  /** A blob survives if it was to be kept and is in one of the packs, or if it is in another pack anyway. */
  ghost predicate Survives(e: Env, s: State, packs: set<Id>, keep: set<BlobHandle>, h: BlobHandle) {
    (h in keep && R.Occurs(e, s.backend, packs, h)) || LocatedElsewhere(s.view, packs, h)
  }

  lemma {:induction false} RunGrows(e: Env, run: seq<State>, acts: seq<Action>, i: nat, j: nat, pb: PackedBlob)
    requires IsRun(e, run, acts) && i <= j <= |acts| && Known(run[i].view, pb)
    ensures Known(run[j].view, pb)
  {
    hide Initial;
    hide Steps;
    hide Known;
    if i < j {
      RunGrows(e, run, acts, i, j - 1, pb);
      assert Steps(e, run[j - 1], acts[j - 1], run[j - 1 + 1]);
      StepGrows(e, run[j - 1], acts[j - 1], run[j]);
    }
  }

  /** What survives is located in a pack that stays. */
  lemma SurvivorLocated(e: Env, run: seq<State>, acts: seq<Action>, i: nat, j: nat, packs: set<Id>,
                        keep: set<BlobHandle>, saved: seq<R.Save>, h: BlobHandle)
    requires IsRun(e, run, acts) && i <= j <= |acts| && Quiet(run[i]) && Quiet(run[j])
    requires R.SavedOnce(e, run[i].backend, packs, keep, saved) && Carried(e, acts, i, j, saved)
    requires forall l :: i <= l < j ==> Avoids(packs, acts[l], run[l + 1])
    requires Survives(e, run[i], packs, keep, h)
    ensures LocatedElsewhere(run[j].view, packs, h)
  {
    hide Initial;
    hide Steps;
    hide SavesAgain;
    hide Quiet;
    hide Avoids;
    hide Known;
    hide R.Occurs;
    hide R.SavedCount;
    if LocatedElsewhere(run[i].view, packs, h) {
      var pb :| Known(run[i].view, pb) && pb.blob.handle == h && pb.packId !in packs;
      RunGrows(e, run, acts, i, j, pb);
    } else {
      assert R.SavedCount(saved, h) == 1;
      var x := SomeSave(saved, h);
      var k :| i <= k < j && SavesAgain(e, acts[k], x.h);
      var pb := CopyElsewhere(e, run, acts, i, k, j, packs, h);
    }
  }

  /** What survives had contents before. */
  lemma SurvivorSaved(e: Env, s: State, packs: set<Id>, keep: set<BlobHandle>, h: BlobHandle)
    requires Inv(e, s) && AllListable(e, s) && packs <= WrittenPacks(s) && Survives(e, s, packs, keep, h)
    ensures h in s.contents
  {
    hide LookedUp;
    hide OpenOk;
    hide CallersOk;
    hide WrittenOk;
    hide Conserved;
    hide Accounted;
    hide FilesMatch;
    hide AllListable;
    hide R.Listed;
    hide R.ReadBlob;
    if LocatedElsewhere(s.view, packs, h) {
      var pb :| Known(s.view, pb) && pb.blob.handle == h && pb.packId !in packs;
      assert Readable(e, s.backend, s.contents, pb);
    } else {
      var id :| id in packs && R.Lists(e, s.backend, id, h);
      var file := s.backend[id];
      var b :| b in R.Listed(e, file).value && b.handle == h;
      assert R.FromPack(e, s.backend, packs, file, b);
      WrittenRead(e, s, packs, file, b);
    }
  }

  /**
   A whole repack, in any run of any number of callers: what it was to save is saved
   again and flushed, the index is saved without the old packs, and these are
   removed.  After a restart every blob that was to be kept, and every blob that is in
   another pack, is loaded as it was before, whatever is cached.
   */
  method LoadAfterRepack(e: Env, ghost run: seq<State>, ghost acts: seq<Action>, ghost i: nat, ghost j: nat,
                         packs: set<Id>, ghost keep: set<BlobHandle>, ghost saved: seq<R.Save>, mi: MasterIndex,
                         extraObsolete: seq<Id>, full: nat -> nat -> bool, names: nat -> Id, sum64: Id -> nat,
                         backend: map<Id, seq<byte>>, h: BlobHandle, cache: Option<Id -> bool>)
    returns (r: Loaded)
    requires IsRun(e, run, acts) && i <= j <= |acts| && Quiet(run[i]) && Quiet(run[j]) && AllFinal(run[j].view)
    requires packs <= WrittenPacks(run[i]) && R.SavedOnce(e, run[i].backend, packs, keep, saved)
    requires Carried(e, acts, i, j, saved) && forall l :: i <= l < j ==> Avoids(packs, acts[l], run[l + 1])
    requires mi.Valid() && mi.view == run[j].view && backend == run[j].backend
    requires Survives(e, run[i], packs, keep, h)
    ensures h in run[i].contents && r == Plain(run[i].contents[h])
  {
    hide Inv;
    hide Initial;
    hide Steps;
    hide Quiet;
    hide AllFinal;
    hide AllListable;
    hide Avoids;
    hide Carried;
    hide Survives;
    hide LocatedElsewhere;
    hide MasterIndex.Valid;
    hide R.SavedOnce;
    RunInv(e, run, acts, i);
    RunListable(e, run, acts, i);
    RunInv(e, run, acts, j);
    SurvivorSaved(e, run[i], packs, keep, h);
    ContentsKept(e, run, acts, i, j, h);
    SurvivorLocated(e, run, acts, i, j, packs, keep, saved, h);
    r := LoadWithout(e, run[j], mi, packs, extraObsolete, full, names, sum64, backend, h, cache);
  }
}
