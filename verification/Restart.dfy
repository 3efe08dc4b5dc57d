/**
 What survives a restart: the index files hold what the final indexes know, so
 that loading them makes every saved blob loadable again.
 */
module Restarts {
  import opened Blobs
  import opened PackLists
  import opened Indexes
  import opened MasterIndexes
  import opened Crypto
  import opened SaveProtocol
  import opened Repositories
  import IndexFiles

  /** Files that describe indexes list a location exactly if one of the indexes knows it. */
  lemma {:induction false} DescribedKnown(files: seq<JsonIndex>, snapshots: seq<Snapshot>, pb: PackedBlob)
    requires IndexFiles.AllDescribed(files, snapshots)
    ensures IndexFiles.InFiles(files, pb) > 0 <==> Inside(snapshots, pb)
  {
    if files != [] {
      var last := |files| - 1;
      DescribedKnown(files[..last], snapshots[..last], pb);
      assert snapshots == snapshots[..last] + [snapshots[last]];
      FinalConcat(snapshots[..last], [snapshots[last]], pb);
      FinalSingle(snapshots[last], pb);
      assert IndexFiles.Describes(files[last], snapshots[last]);
    }
  }

  /** When all indexes are final, what is known is known in a final one. */
  lemma FinalKnown(view: seq<Snapshot>, pb: PackedBlob)
    requires AllFinal(view)
    ensures Known(view, pb) <==> KnownFinal(view, pb)
  {
    LookedUpMember(view, pb.blob.handle, pb);
  }

  /** The indexes know exactly the locations that the files list. */
  ghost predicate Reloaded(view: seq<Snapshot>, files: seq<JsonIndex>) {
    forall pb :: Known(view, pb) <==> IndexFiles.InFiles(files, pb) > 0
  }

  /** Nothing is at work, and every index has been closed and written. */
  ghost predicate Settled(s: State) {
    Quiet(s) && s.unsaved == [] && AllFinal(s.view)
  }

  /** From the files alone, every handle with contents can be loaded. */
  lemma ReloadedLoadable(e: Env, s: State, files: seq<JsonIndex>, view: seq<Snapshot>, h: BlobHandle)
    requires Inv(e, s) && Settled(s) && h in s.contents
    requires IndexFiles.AllDescribed(files, s.indexFiles) && Reloaded(view, files)
    ensures Loadable(e, s.(view := view), h, s.contents[h])
  {
    hide LookedUp;
    hide Readable;
    hide Known;
    hide KnownFinal;
    hide Inside;
    hide Healthy;
    hide Conserved;
    hide Accounted;
    hide IndexFiles.AllDescribed;
    QuietLoadable(e, s, h);
    forall pb ensures Known(view, pb) <==> Known(s.view, pb) {
      DescribedKnown(files, s.indexFiles, pb);
      FinalKnown(s.view, pb);
      NothingInside(pb);
    }
    SameLoadable(e, s, view, h, s.contents[h]);
  }

  lemma NothingInside(pb: PackedBlob)
    ensures !Inside([], pb)
  {
  }

  lemma SameLoadable(e: Env, s: State, view: seq<Snapshot>, h: BlobHandle, bytes: seq<byte>)
    requires Loadable(e, s, h, bytes) && forall pb :: Known(view, pb) <==> Known(s.view, pb)
    ensures Loadable(e, s.(view := view), h, bytes)
  {
    hide LookedUp;
    hide Readable;
    IndexedKept(s.view, view, h);
    forall pb | pb in LookedUp(view, h) ensures pb.blob.handle == h && Readable(e, s.backend, s.contents, pb) {
      LookedUpMember(view, h, pb);
      assert Known(view, pb) && Known(s.view, pb);
    }
  }

  lemma LoadedReloaded(mi: MasterIndex, files: seq<JsonIndex>)
    requires mi.Valid() && |mi.view| == 1
    requires forall pb: PackedBlob ::
               multiset(mi.view[0].Of(pb.blob.handle.tpe))[pb] == if IndexFiles.InFiles(files, pb) > 0 then 1 else 0
    ensures Reloaded(mi.view, files)
  {
    hide MasterIndex.Valid;
    hide LookedUp;
    forall pb ensures Known(mi.view, pb) <==> IndexFiles.InFiles(files, pb) > 0 {
      LookedUpMember(mi.view, pb.blob.handle, pb);
      assert pb in mi.view[0].Of(pb.blob.handle.tpe) <==> multiset(mi.view[0].Of(pb.blob.handle.tpe))[pb] > 0;
    }
  }

  /** Loads the index files into a new master index, and a blob through it. */
  method LoadFromFiles(e: Env, ghost s: State, files: seq<JsonIndex>, names: nat -> Id, sum64: Id -> nat,
                       backend: map<Id, seq<byte>>, h: BlobHandle, cache: Option<Id -> bool>)
    returns (r: Loaded)
    requires Inv(e, s) && Settled(s) && h in s.contents && backend == s.backend
    requires IndexFiles.AllDescribed(files, s.indexFiles)
    ensures r == Plain(s.contents[h])
  {
    hide Inv;
    hide Settled;
    hide LookedUp;
    hide Loadable;
    hide AllYield;
    hide MasterIndex.Valid;
    var mi := IndexFiles.LoadIndex(files, seq(|files|, k requires 0 <= k < |files| => names(k)), sum64);
    LoadedReloaded(mi, files);
    ReloadedLoadable(e, s, files, mi.view, h);
    LoadableYields(e, s.(view := mi.view), h, s.contents[h]);
    var pbs := mi.Lookup(h);
    assert pbs != [];
    r := LoadAny(e, backend, h.id, cache, pbs);
  }

  /**
   A load after a restart that follows any run of any number of callers: once
   everything is flushed and all indexes are written, what some caller saved is
   returned exactly, from the pack files and index files alone.
   */
  method LoadAfterRestart(e: Env, ghost run: seq<State>, ghost acts: seq<Action>, ghost i: nat, ghost j: nat,
                          files: seq<JsonIndex>, names: nat -> Id, sum64: Id -> nat,
                          backend: map<Id, seq<byte>>, h: BlobHandle, cache: Option<Id -> bool>)
    returns (r: Loaded)
    requires IsRun(e, run, acts) && i < j <= |acts| && Saves(e, acts[i], h) && Settled(run[j])
    requires backend == run[j].backend && IndexFiles.AllDescribed(files, run[j].indexFiles)
    ensures r == Plain(acts[i].bytes)
  {
    hide Initial;
    hide Inv;
    hide LookedUp;
    hide IndexFiles.AllDescribed;
    SavedLoadable(e, run, acts, i, j, h);
    RunInv(e, run, acts, j);
    r := LoadFromFiles(e, run[j], files, names, sum64, backend, h, cache);
  }

  /** After a flush, a repository can be reopened from its files. */
  method LoadReopened(repo: Repository, names: nat -> Id, sum64: Id -> nat, h: BlobHandle, cache: Option<Id -> bool>)
    returns (r: Loaded)
    requires repo.Valid() && Inv(repo.env, repo.Now(Idle)) && Quiet(repo.Now(Idle)) && AllFinal(repo.idx.view)
    requires h in repo.contents
    ensures r == Plain(repo.contents[h])
  {
    hide Inv;
    hide MasterIndex.Valid;
    hide IndexFiles.AllDescribed;
    r := LoadFromFiles(repo.env, repo.Now(Idle), repo.indexFiles, names, sum64, repo.backend, h, cache);
  }
}
