/**
 Reading files of a mounted repository that was written by any run of callers: the
 indexed sizes are those of the plaintexts, so reads give the saved bytes.
 */
module FuseRuns {
  import opened Blobs
  import opened BlobLrus
  import opened Crypto
  import opened Indexes
  import opened MasterIndexes
  import opened SaveProtocol
  import FF = FuseFiles

  function DataHandle(id: Id): BlobHandle {
    BlobHandle(id, DataBlob)
  }

  /**
   Sizes and blobs come from the repository: sizes from the master index, and blobs
   as they are loaded, which is right for blobs that can be read wherever they are.
   */
  ghost predicate Serves(e: Env, s: State, repo: FF.Repo) {
    forall id :: ServesSize(s, repo, id) && ServesBlob(e, s, repo, id)
  }

  ghost predicate ServesSize(s: State, repo: FF.Repo, id: Id) {
    && (repo.lookupSize(id).None? <==> !Indexed(s.view, DataHandle(id)))
    && (repo.lookupSize(id).Some? ==> SizeAmong(repo.lookupSize(id).value, LookedUp(s.view, DataHandle(id))))
  }

  ghost predicate ServesBlob(e: Env, s: State, repo: FF.Repo, id: Id) {
    && (!Indexed(s.view, DataHandle(id)) ==> repo.load(id).None?)
    && forall bytes :: Loadable(e, s, DataHandle(id), bytes) ==>
         repo.load(id).Some? && repo.load(id).value.data == bytes
  }

  ghost function SizeAnswer(s: State, id: Id): Option<nat> {
    if Indexed(s.view, DataHandle(id)) then
      var pb :| pb in LookedUp(s.view, DataHandle(id));
      Some(PlaintextLength(pb.blob.length))
    else None
  }

  ghost function BlobAnswer(s: State, id: Id): Option<Buffer> {
    var h := DataHandle(id);
    if Indexed(s.view, h) && h in s.contents then Some(Buffer(|s.contents[h]|, s.contents[h])) else None
  }

  /** Such sizes and blobs can be had in every state. */
  lemma SomeServes(e: Env, s: State)
    ensures exists repo :: Serves(e, s, repo)
  {
    hide LookedUp;
    hide PlaintextLength;
    var repo := FF.Repo((id: Id) => SizeAnswer(s, id), (id: Id) => BlobAnswer(s, id));
    assert Serves(e, s, repo);
  }

  /** The length of a sealed blob tells the length of its plaintext. */
  lemma ReadableSize(e: Env, s: State, pb: PackedBlob)
    requires e.key.Sized() && Readable(e, s.backend, s.contents, pb)
    ensures PlaintextLength(pb.blob.length) == |s.contents[pb.blob.handle]|
  {
    var b := pb.blob;
    var buf := s.backend[pb.packId][b.offset..b.offset + b.length];
    assert e.key.open(buf[..NONCE_SIZE], buf[NONCE_SIZE..]) == Some(s.contents[b.handle]);
  }

  /** Whatever is indexed can be loaded, and its indexed size is right. */
  lemma IndexedServed(e: Env, s: State, repo: FF.Repo, id: Id)
    requires Inv(e, s) && e.key.Sized() && Serves(e, s, repo) && Indexed(s.view, DataHandle(id))
    ensures DataHandle(id) in s.contents
    ensures repo.load(id).Some? && repo.load(id).value.data == s.contents[DataHandle(id)]
    ensures repo.lookupSize(id) == Some(|s.contents[DataHandle(id)]|)
  {
    hide LookedUp;
    hide Readable;
    hide PlaintextLength;
    hide Conserved;
    hide Accounted;
    hide FilesMatch;
    var h := DataHandle(id);
    assert ServesSize(s, repo, id) && ServesBlob(e, s, repo, id);
    forall pb | pb in LookedUp(s.view, h)
      ensures pb.blob.handle == h && Readable(e, s.backend, s.contents, pb) && h in s.contents
    {
      LookedUpMember(s.view, h, pb);
      assert Known(s.view, pb);
      ReadableHeld(e, s, pb);
    }
    var pb :| pb in LookedUp(s.view, h) && repo.lookupSize(id).value == PlaintextLength(pb.blob.length);
    ReadableSize(e, s, pb);
    assert Loadable(e, s, h, s.contents[h]);
  }

  lemma ReadableHeld(e: Env, s: State, pb: PackedBlob)
    requires Readable(e, s.backend, s.contents, pb)
    ensures pb.blob.handle in s.contents
  {
  }

  /** For every file that can be opened, indexed sizes are the sizes of what is loaded. */
  lemma SizesServed(e: Env, s: State, repo: FF.Repo, content: seq<Id>)
    requires Inv(e, s) && e.key.Sized() && Serves(e, s, repo) && FF.AllFound(repo, content)
    ensures FF.SizesMatch(repo, content) && FF.AllLoad(repo, content)
  {
    hide Inv;
    hide Indexed;
    hide Loadable;
    forall k | 0 <= k < |content|
      ensures repo.load(content[k]).Some?
      ensures repo.lookupSize(content[k]).value == |repo.load(content[k]).value.data|
    {
      assert ServesSize(s, repo, content[k]);
      IndexedServed(e, s, repo, content[k]);
    }
  }

  /** The plaintexts of a list of data blobs, one after the other. */
  ghost function Plaintexts(contents: map<BlobHandle, seq<byte>>, content: seq<Id>): seq<byte>
    requires AllSaved(contents, content)
  {
    if content == [] then []
    else Plaintexts(contents, content[..|content| - 1]) + contents[DataHandle(content[|content| - 1])]
  }

  ghost predicate AllSaved(contents: map<BlobHandle, seq<byte>>, content: seq<Id>) {
    forall k :: 0 <= k < |content| ==> DataHandle(content[k]) in contents
  }

  /** After a flush, a file of saved blobs is found, and its bytes are those that were saved. */
  lemma {:induction false} WholeSaved(e: Env, s: State, repo: FF.Repo, content: seq<Id>)
    requires Inv(e, s) && e.key.Sized() && Serves(e, s, repo) && Quiet(s) && AllSaved(s.contents, content)
    ensures FF.AllFound(repo, content) && FF.AllLoad(repo, content) && FF.SizesMatch(repo, content)
    ensures FF.Whole(repo, content) == Plaintexts(s.contents, content)
    ensures FF.Size(repo, content) == |Plaintexts(s.contents, content)|
  {
    hide Inv;
    hide Indexed;
    hide Quiet;
    if content != [] {
      var init, id := content[..|content| - 1], content[|content| - 1];
      WholeSaved(e, s, repo, init);
      QuietLoadable(e, s, DataHandle(id));
      IndexedServed(e, s, repo, id);
      assert content == init + [id];
    }
  }

  /**
   Reading a file after any run of any number of callers, once everything is
   flushed: the bytes are those of the saved blobs, as far as the file goes, at every
   offset and whatever the blob cache holds.
   */
  method ReadAfterRun(e: Env, ghost run: seq<State>, ghost acts: seq<Action>, ghost j: nat, repo: FF.Repo,
                      content: seq<Id>, cache: Cache, offset: nat, size: nat, dst: array<byte>)
    returns (ok: bool, n: nat)
    requires IsRun(e, run, acts) && j <= |acts| && Quiet(run[j]) && e.key.Sized() && Serves(e, run[j], repo)
    requires AllSaved(run[j].contents, content) && |Plaintexts(run[j].contents, content)| < UINT64_RANGE
    requires cache.Valid() && FF.CacheOk(repo, cache.lru) && size <= dst.Length
    modifies cache, dst
    ensures cache.Valid() && FF.CacheOk(repo, cache.lru)
    ensures ok && n <= size && dst[..n] == FF.Wanted(Plaintexts(run[j].contents, content), offset, size)
  {
    hide Inv;
    hide Initial;
    hide Quiet;
    hide Serves;
    hide AllSaved;
    hide Plaintexts;
    hide FF.Size;
    hide FF.Whole;
    hide FF.Wanted;
    hide FF.CacheOk;
    hide Cache.Valid;
    RunInv(e, run, acts, j);
    WholeSaved(e, run[j], repo, content);
    var f := FF.Open(repo, content);
    ok, n := FF.Read(f, cache, offset, size, dst);
  }
}
