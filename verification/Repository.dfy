/**
 The repository: its master index, its two packer managers and its backend.  The
 methods take the steps of the saving protocol, as its only caller; loading tries
 the locations of a blob one after the other.
 */
module Repositories {
  import opened Blobs
  import opened Indexes
  import opened MasterIndexes
  import opened Crypto
  import opened Packs
  import opened SaveProtocol
  import IndexFiles

  // ---------------------------------------------------------------- the order of candidates

  /** The packed blobs whose pack is, or is not, in the cache; in order. */
  ghost function Cached(has: Id -> bool, wanted: bool, pbs: seq<PackedBlob>): seq<PackedBlob> {
    if pbs == [] then []
    else
      var rest := Cached(has, wanted, pbs[..|pbs| - 1]);
      if has(pbs[|pbs| - 1].packId) == wanted then rest + [pbs[|pbs| - 1]] else rest
  }

  lemma {:induction false} CachedPartitions(has: Id -> bool, pbs: seq<PackedBlob>)
    ensures multiset(Cached(has, true, pbs) + Cached(has, false, pbs)) == multiset(pbs)
    ensures |Cached(has, true, pbs)| + |Cached(has, false, pbs)| == |pbs|
  {
    if pbs != [] {
      CachedPartitions(has, pbs[..|pbs| - 1]);
      assert pbs == pbs[..|pbs| - 1] + [pbs[|pbs| - 1]];
    }
  }

  lemma CachedStep(has: Id -> bool, wanted: bool, pbs: seq<PackedBlob>, i: nat)
    requires i < |pbs|
    ensures Cached(has, wanted, pbs[..i + 1]) ==
            Cached(has, wanted, pbs[..i]) + if has(pbs[i].packId) == wanted then [pbs[i]] else []
  {
    assert pbs[..i + 1][..i] == pbs[..i];
  }

  method CopyBack(blobs: array<PackedBlob>, from: nat, rest: seq<PackedBlob>)
    requires from + |rest| == blobs.Length
    modifies blobs
    ensures blobs[..] == old(blobs[..from]) + rest
  {
    forall k | 0 <= k < |rest| {
      blobs[from + k] := rest[k];
    }
    assert blobs[..from] == old(blobs[..from]);
  }

  /** Moves the blobs in cached packs to the front, keeping the order otherwise. */
  method SortCachedPacksFirst(cache: Option<Id -> bool>, blobs: array<PackedBlob>)
    modifies blobs
    ensures cache.None? ==> blobs[..] == old(blobs[..])
    ensures cache.Some? ==>
              blobs[..] == Cached(cache.value, true, old(blobs[..])) + Cached(cache.value, false, old(blobs[..]))
  {
    hide Cached;
    if cache.None? {
      return;
    }
    ghost var was := blobs[..];
    var has := cache.value;
    if blobs.Length == 1 {
      CachedSingle(has, was);
      return;
    }
    var cached, noncached := 0, [];
    assert was[..0] == [];
    CachedEmpty(has);
    for i := 0 to blobs.Length
      invariant blobs[i..] == was[i..]
      invariant cached <= i && blobs[..cached] == Cached(has, true, was[..i])
      invariant noncached == Cached(has, false, was[..i]) && cached + |noncached| == i
    {
      var blob := blobs[i];
      assert blob == blobs[i..][0] == was[i];
      CachedStep(has, true, was, i);
      CachedStep(has, false, was, i);
      if has(blob.packId) {
        blobs[cached] := blob;
        cached := cached + 1;
      } else {
        noncached := noncached + [blob];
      }
      assert blobs[i + 1..] == was[i..][1..];
    }
    assert was[..blobs.Length] == was;
    CopyBack(blobs, cached, noncached);
  }

  lemma CachedSingle(has: Id -> bool, pbs: seq<PackedBlob>)
    requires |pbs| == 1
    ensures Cached(has, true, pbs) + Cached(has, false, pbs) == pbs
  {
    assert pbs[..0] == [] && pbs[..1] == pbs;
    CachedStep(has, true, pbs, 0);
    CachedStep(has, false, pbs, 0);
  }

  lemma CachedEmpty(has: Id -> bool)
    ensures Cached(has, true, []) == [] && Cached(has, false, []) == []
  {
  }

  // ---------------------------------------------------------------- loading

  datatype Attempt = Skip | Panic | Data(bytes: seq<byte>)

  datatype Loaded = NotFound | AllFailed | Panicked | Plain(bytes: seq<byte>)

  /** One location: it is skipped if it cannot be read in full, opened, or has the wrong hash. */
  function Try(e: Env, backend: map<Id, seq<byte>>, id: Id, pb: PackedBlob): Attempt {
    if pb.packId !in backend || pb.blob.offset + pb.blob.length > |backend[pb.packId]| then Skip
    else if pb.blob.length < NONCE_SIZE then Panic
    else
      match e.key.Opened(backend[pb.packId][pb.blob.offset..pb.blob.offset + pb.blob.length])
      case None => Skip
      case Some(p) => if e.hash(p) == id then Data(p) else Skip
  }

  /** Tries the locations in order and returns the first plaintext with the right hash. */
  method LoadFrom(e: Env, backend: map<Id, seq<byte>>, id: Id, blobs: array<PackedBlob>) returns (r: Loaded)
    ensures r.Plain? ==> e.hash(r.bytes) == id
    ensures r.Plain? <==> exists k :: 0 <= k < blobs.Length && Try(e, backend, id, blobs[k]) .Data?
                                       && forall j :: 0 <= j < k ==> Try(e, backend, id, blobs[j]).Skip?
    ensures r.Plain? ==> exists k :: 0 <= k < blobs.Length && Try(e, backend, id, blobs[k]) == Data(r.bytes)
    ensures r.AllFailed? <==> forall k :: 0 <= k < blobs.Length ==> Try(e, backend, id, blobs[k]).Skip?
    ensures !r.NotFound?
  {
    for i := 0 to blobs.Length
      invariant forall k :: 0 <= k < i ==> Try(e, backend, id, blobs[k]).Skip?
    {
      var pb := blobs[i];
      if pb.packId !in backend || pb.blob.offset + pb.blob.length > |backend[pb.packId]| {
        continue;
      }
      var buf := backend[pb.packId][pb.blob.offset..pb.blob.offset + pb.blob.length];
      if |buf| < NONCE_SIZE {
        return Panicked;
      }
      var plaintext := e.key.Opened(buf);
      if plaintext.None? || e.hash(plaintext.value) != id {
        continue;
      }
      assert Try(e, backend, id, blobs[i]) == Data(plaintext.value);
      return Plain(plaintext.value);
    }
    return AllFailed;
  }

  // ---------------------------------------------------------------- packer managers

  class PackerManager {
    const key: Key
    var packers: seq<Packer>

    constructor (key: Key)
      ensures packers == [] && this.key == key
    {
      this.key := key;
      packers := [];
    }

    /** Hands out the first open packer, whose place the last one takes, or a new one. */
    method FindPacker() returns (packer: Packer)
      modifies this
      ensures old(packers) != [] ==> packer == old(packers)[0] && packers == Taken(old(packers))
      ensures old(packers) == [] ==> fresh(packer) && packers == []
      ensures old(packers) == [] ==> packer.Open() && packer.key == key && packer.blobs == [] && packer.file == []
    {
      if |packers| > 0 {
        packer := packers[0];
        var last := |packers| - 1;
        packers := packers[0 := packers[last]];
        packers := packers[..last];
        return;
      }
      packer := new Packer(key);
    }

    method InsertPacker(p: Packer)
      modifies this
      ensures packers == old(packers) + [p]
    {
      packers := packers + [p];
    }
  }

  // ---------------------------------------------------------------- the repository

  ghost function PackOf(p: Packer): Pack
    reads p
  {
    Pack(p.blobs, p.file)
  }

  ghost function PacksOf(ps: seq<Packer>): (packs: seq<Pack>)
    reads ps
    ensures |packs| == |ps| && forall i :: 0 <= i < |ps| ==> packs[i] == PackOf(ps[i])
  {
    seq(|ps|, i requires 0 <= i < |ps| reads ps => PackOf(ps[i]))
  }

  lemma PacksOfTaken(ps: seq<Packer>)
    requires ps != []
    ensures PacksOf(Taken(ps)) == Taken(PacksOf(ps))
  {
  }

  /** Open packers with the right key. */
  ghost predicate AllOpen(key: Key, ps: seq<Packer>)
    reads ps
  {
    forall p :: p in ps ==> p.Open() && p.key == key
  }

  ghost predicate Distinct(ps: seq<Packer>) {
    forall i, j :: 0 <= i < j < |ps| ==> ps[i] != ps[j]
  }

  /** No packer is in two places. */
  ghost predicate Apart(data: seq<Packer>, tree: seq<Packer>, others: set<object>) {
    && Distinct(data) && Distinct(tree)
    && (forall p :: p in data ==> p !in tree && p !in others)
    && (forall p :: p in tree ==> p !in others)
  }

  lemma DistinctTaken(ps: seq<Packer>)
    requires ps != [] && Distinct(ps)
    ensures Distinct(Taken(ps)) && ps[0] !in Taken(ps) && forall p :: p in Taken(ps) ==> p in ps
  {
  }

  /** What the invariant says about a packer that is about to be written. */
  lemma ClosingFits(e: Env, s: State)
    requires Inv(e, s) && |s.callers| == 1 && s.callers[0].Closing?
    ensures AllStorable(s.callers[0].pack.blobs) && AllFit(s.callers[0].pack.blobs)
  {
    hide OpenOk;
    hide ViewOk;
    hide WrittenOk;
    hide AllHeld;
    hide Conserved;
    hide Accounted;
    var c := s.callers[0];
    assert CallerOk(e, s.backend, s.contents, c);
    assert forall k :: 0 <= k < |c.pack.blobs| ==> c.pack.blobs[k] in c.pack.blobs;
  }

  /** The name of the finished pack is null, or the backend holds another file under it. */
  ghost predicate Refused(e: Env, backend: map<Id, seq<byte>>, p: Pack, nonce: seq<byte>) {
    AllStorable(p.blobs) &&
    var file := File(e, p, nonce);
    e.hash(file) == NullId() || (e.hash(file) in backend && backend[e.hash(file)] != file)
  }

  /** The packer that the next blob goes to. */
  function NextPack(s: State, t: BlobType): Pack {
    if Open(s, t) != [] then Open(s, t)[0] else Pack([], [])
  }

  lemma BeginInv(e: Env, s: State, t: BlobType, id: Id, bytes: seq<byte>, storeDuplicate: bool)
    requires e.key.Lawful() && Inv(e, s) && |s.callers| == 1 && s.callers[0].Idle?
             && Saveable(e, s.contents, t, id, bytes)
    ensures Inv(e, Begun(s, 0, BlobHandle(SaveId(e, id, bytes), t), bytes, storeDuplicate))
  {
    hide Inv;
    hide Begun;
    StepInv(e, s, Begin(0, t, id, bytes, storeDuplicate),
            Begun(s, 0, BlobHandle(SaveId(e, id, bytes), t), bytes, storeDuplicate));
  }

  lemma FindInv(e: Env, s: State)
    requires e.key.Lawful() && Inv(e, s) && |s.callers| == 1 && s.callers[0].Claiming?
    ensures Inv(e, Found(s, 0))
  {
    hide Inv;
    hide Found;
    StepInv(e, s, Find(0), Found(s, 0));
  }

  lemma AddInv(e: Env, s: State, nonce: seq<byte>)
    requires e.key.Lawful() && Inv(e, s) && |s.callers| == 1 && s.callers[0].Packing? && |nonce| == NONCE_SIZE
    ensures Inv(e, Added(e, s, 0, nonce))
  {
    hide Inv;
    hide Added;
    StepInv(e, s, Add(0, nonce), Added(e, s, 0, nonce));
  }

  lemma PutInv(e: Env, s: State)
    requires e.key.Lawful() && Inv(e, s) && |s.callers| == 1
    requires s.callers[0].Closing? && !s.callers[0].flush && |s.callers[0].pack.bytes| < MIN_PACK_SIZE
    ensures Inv(e, PutBack(s, 0))
  {
    hide Inv;
    hide PutBack;
    StepInv(e, s, Put(0), PutBack(s, 0));
  }

  lemma FlushInv(e: Env, s: State, t: BlobType)
    requires e.key.Lawful() && Inv(e, s) && |s.callers| == 1 && s.callers[0].Idle? && Storable(t) && Open(s, t) != []
    ensures Inv(e, Flushed(s, 0, t))
  {
    hide Inv;
    hide Flushed;
    StepInv(e, s, Flush(0, t), Flushed(s, 0, t));
  }

  lemma UploadInv(e: Env, s: State, nonce: seq<byte>)
    requires e.key.Lawful() && Inv(e, s) && CanUpload(e, s, 0, nonce)
    ensures Inv(e, Uploaded(e, s, 0, nonce))
  {
    hide Inv;
    StepInv(e, s, Upload(0, nonce), Uploaded(e, s, 0, nonce));
  }

  lemma RecordInv(e: Env, s: State)
    requires e.key.Lawful() && Inv(e, s) && |s.callers| == 1 && s.callers[0].Storing?
    ensures Inv(e, Recorded(s, 0)) && Recorded(s, 0).data == s.data && Recorded(s, 0).tree == s.tree
  {
    hide Inv;
    StepInv(e, s, Record(0), Recorded(s, 0));
  }

  /** The state after the first n closed indexes were written. */
  ghost function SavedFirst(s: State, n: nat): State
    requires n <= |s.unsaved|
  {
    s.(unsaved := s.unsaved[n..], indexFiles := s.indexFiles + s.unsaved[..n])
  }

  lemma SaveNext(e: Env, s: State, n: nat)
    requires e.key.Lawful() && n < |s.unsaved| && Inv(e, SavedFirst(s, n))
    ensures Inv(e, SavedFirst(s, n + 1))
  {
    hide Inv;
    var s1, s2 := SavedFirst(s, n), SavedFirst(s, n + 1);
    assert s1.unsaved[..0] + s1.unsaved[1..] == s2.unsaved;
    assert s1.indexFiles + [s1.unsaved[0]] == s2.indexFiles by {
      assert s.unsaved[..n + 1] == s.unsaved[..n] + [s.unsaved[n]];
    }
    StepInv(e, s1, SaveIndex(0), s2);
  }

  /** Writing the closed indexes one after the other. */
  lemma {:induction false} SaveIndexesInv(e: Env, s: State, n: nat)
    requires e.key.Lawful() && Inv(e, s) && n <= |s.unsaved|
    ensures Inv(e, SavedFirst(s, n))
  {
    hide Inv;
    if n == 0 {
      assert SavedFirst(s, 0) == s;
    } else {
      SaveIndexesInv(e, s, n - 1);
      SaveNext(e, s, n - 1);
    }
  }

  lemma MergeInv(e: Env, s: State, full: nat -> bool, merged: seq<Snapshot>)
    requires e.key.Lawful() && Inv(e, s) && s.unsaved == [] && MergedView(Closed(s.view, full), merged)
    ensures Inv(e, s.(view := merged, indexFiles := s.indexFiles + NewlyClosed(s.view, full)))
  {
    hide Inv;
    hide NewlyClosed;
    hide MergedView;
    var s1 := s.(view := Closed(s.view, full), unsaved := NewlyClosed(s.view, full));
    assert s.unsaved + NewlyClosed(s.view, full) == NewlyClosed(s.view, full);
    StepInv(e, s, Finalize(full), s1);
    SaveIndexesInv(e, s1, |s1.unsaved|);
    var s2 := s1.(unsaved := [], indexFiles := s.indexFiles + NewlyClosed(s.view, full));
    assert SavedFirst(s1, |s1.unsaved|) == s2;
    StepInv(e, s2, Merge(merged), s2.(view := merged));
  }

  /** Where the newly closed indexes are. */
  lemma {:induction false} NewlyClosedAt(view: seq<Snapshot>, full: nat -> bool, at: seq<nat>)
    requires Positioned(at, |view|) && forall j :: 0 <= j < |view| ==> (j in at <==> !view[j].final && full(j))
    ensures |NewlyClosed(view, full)| == |at|
    ensures forall k :: 0 <= k < |at| ==> NewlyClosed(view, full)[k] == Closed(view, full)[at[k]]
  {
    if view != [] {
      var last := |view| - 1;
      var init := view[..last];
      assert Closed(init, full) == Closed(view, full)[..last];
      var at1 := if !view[last].final && full(last) then at[..|at| - 1] else at;
      if !view[last].final && full(last) {
        LastPosition(at, |view|);
      } else {
        NotLast(at, |view|);
      }
      NewlyClosedAt(init, full, at1);
    } else {
      FewPositions(at, 0);
    }
  }

  lemma NotLast(at: seq<nat>, n: nat)
    requires n > 0 && Positioned(at, n) && n - 1 !in at
    ensures Positioned(at, n - 1)
  {
    assert forall k :: 0 <= k < |at| ==> at[k] in at;
  }

  lemma {:induction false} FewPositions(at: seq<nat>, n: nat)
    requires Positioned(at, n)
    ensures |at| <= n
    decreases |at|
  {
    var last := |at| - 1;
    if last >= 0 {
      FewPositions(at[..last], at[last]);
    }
  }

  lemma LastPosition(at: seq<nat>, n: nat)
    requires n > 0 && Positioned(at, n) && n - 1 in at
    ensures at != [] && at[|at| - 1] == n - 1 && Positioned(at[..|at| - 1], n - 1)
    ensures at == at[..|at| - 1] + [n - 1]
    ensures forall j :: j < n - 1 ==> (j in at <==> j in at[..|at| - 1])
  {
    var k :| 0 <= k < |at| && at[k] == n - 1;
    assert at[k] <= at[|at| - 1];
  }

  /** What is known can be described in an index file. */
  lemma InvDescribable(e: Env, s: State, i: nat, t: BlobType, pb: PackedBlob)
    requires Inv(e, s) && i < |s.view| && pb in s.view[i].Of(t) && pb.blob.handle.tpe == t
    ensures Describable(pb)
  {
    hide OpenOk;
    hide CallersOk;
    hide WrittenOk;
    hide Conserved;
    hide Accounted;
    hide FilesMatch;
    hide LookedUp;
    hide Holds;
    LookedUpMember(s.view, pb.blob.handle, pb);
    assert Known(s.view, pb);
  }

  lemma NewInitial(e: Env, s: State)
    requires s == State({}, [Snapshot(true, [], [], [], [])], [], [], map[], [Idle], map[], multiset{}, multiset{}, [],
                       [], [])
    ensures Initial(e, s)
  {
    hide LookedUp;
    forall pb ensures !KnownFinal(s.view, pb) && !Inside(s.unsaved, pb) && !Inside(s.indexFiles, pb) {
    }
    forall pb ensures !Known(s.view, pb) {
      LookedUpMember(s.view, pb.blob.handle, pb);
    }
  }

  class Repository {
    const env: Env
    const idx: MasterIndex
    const dataPM: PackerManager
    const treePM: PackerManager
    var backend: map<Id, seq<byte>>   // the pack files
    var indexFiles: seq<JsonIndex>

    ghost var contents: map<BlobHandle, seq<byte>>
    ghost var first: multiset<BlobHandle>
    ghost var again: multiset<BlobHandle>
    ghost var written: seq<Written>
    ghost var saved: seq<Snapshot>    // what the index files hold

    ghost predicate Valid()
      reads this, dataPM, treePM, dataPM.packers, treePM.packers, idx, idx.Repr
    {
      && idx.Valid() && dataPM != treePM && this !in idx.Repr && dataPM !in idx.Repr && treePM !in idx.Repr
      && env.key.Lawful() && dataPM.key == env.key && treePM.key == env.key
      && AllOpen(env.key, dataPM.packers) && AllOpen(env.key, treePM.packers)
      && Apart(dataPM.packers, treePM.packers, idx.Repr)
      && IndexFiles.AllDescribed(indexFiles, saved)
    }

    /** The state of the protocol, with the given position of the caller. */
    ghost function Now(c: Caller): State
      reads this, dataPM, treePM, dataPM.packers, treePM.packers, idx
    {
      State(idx.pendingBlobs, idx.view, PacksOf(dataPM.packers), PacksOf(treePM.packers), backend, [c],
            contents, first, again, written, [], saved)
    }

    /** A new repository, without any packs. */
    constructor (env: Env, sum64: Id -> nat)
      requires env.key.Lawful()
      ensures Valid() && Initial(env, Now(Idle)) && this.env == env
    {
      hide MasterIndex.Valid;
      hide Key.Lawful;
      this.env := env;
      idx := new MasterIndex(sum64);
      dataPM := new PackerManager(env.key);
      treePM := new PackerManager(env.key);
      backend, contents, first, again, written := map[], map[], multiset{}, multiset{}, [];
      indexFiles, saved := [], [];
      new;
      NewInitial(env, Now(Idle));
    }

    function Manager(t: BlobType): PackerManager {
      if t == TreeBlob then treePM else dataPM
    }

    /** A packer that the caller holds. */
    ghost predicate Held(p: Packer)
      reads this, dataPM, treePM, idx, p
    {
      p !in dataPM.packers && p !in treePM.packers && p !in idx.Repr && p.Open() && p.key == env.key
    }

    /** Takes an open packer or a new one. */
    method Find(h: BlobHandle, data: seq<byte>) returns (p: Packer)
      requires Valid() && Storable(h.tpe)
      modifies dataPM, treePM
      ensures Valid() && Held(p) && (fresh(p) || p in old(dataPM.packers) || p in old(treePM.packers))
      ensures PackOf(p) == NextPack(old(Now(Idle)), h.tpe)
      ensures Now(Packing(h, data, PackOf(p))) == Found(old(Now(Claiming(h, data))), 0)
    {
      hide IndexFiles.AllDescribed;
      hide MasterIndex.Valid;
      hide Taken;
      hide PacksOf;
      hide Distinct;
      hide Key.Lawful;
      ghost var open := Manager(h.tpe).packers;
      if open != [] {
        DistinctTaken(open);
      }
      p := Manager(h.tpe).FindPacker();
      if open != [] {
        PacksOfTaken(open);
      }
      ghost var c := Packing(h, data, PackOf(p));
      assert [Claiming(h, data)][0 := c] == [c];
      assert PacksOf(open) == old(PacksOf(open));
    }

    /** Seals a blob and appends it to a held packer. */
    method Append(p: Packer, h: BlobHandle, data: seq<byte>, nonce: seq<byte>)
      requires Valid() && Held(p) && |nonce| == NONCE_SIZE
      modifies p
      ensures Valid() && Held(p) && PackOf(p) == Appended(env, old(PackOf(p)), h, data, nonce)
      ensures Now(Closing(h.tpe, PackOf(p), false)) == Added(env, old(Now(Packing(h, data, PackOf(p)))), 0, nonce)
    {
      hide IndexFiles.AllDescribed;
      hide MasterIndex.Valid;
      hide PacksOf;
      hide Distinct;
      hide Key.Lawful;
      hide TotalLength;
      hide Consecutive;
      var ciphertext := env.key.Sealed(nonce, data);
      var n := p.Add(h.tpe, h.id, ciphertext);
      ghost var c, c1 := old(Packing(h, data, PackOf(p))), Closing(h.tpe, PackOf(p), false);
      assert [c][0 := c1] == [c1];
      assert PacksOf(dataPM.packers) == old(PacksOf(dataPM.packers));
      assert PacksOf(treePM.packers) == old(PacksOf(treePM.packers));
    }

    /** Puts a held packer back. */
    method Put(t: BlobType, p: Packer, ghost flush: bool)
      requires Valid() && Held(p)
      modifies dataPM, treePM
      ensures Valid()
      ensures Now(Idle) == PutBack(old(Now(Closing(t, PackOf(p), flush))), 0)
    {
      hide IndexFiles.AllDescribed;
      hide MasterIndex.Valid;
      hide PacksOf;
      hide Key.Lawful;
      hide TotalLength;
      hide Consecutive;
      Manager(t).InsertPacker(p);
      ghost var c := old(Closing(t, PackOf(p), flush));
      assert [c][0 := Idle] == [Idle];
      assert PacksOf(Manager(t).packers) == old(PacksOf(Manager(t).packers)) + [PackOf(p)];
    }
  
    /** Records an uploaded pack in the master index. */
    method Record(id: Id, blobs: seq<Blob>)
      requires Valid() && AllFit(blobs)
      modifies this`written, idx.Repr
      ensures Valid() && fresh(idx.Repr - old(idx.Repr))
      ensures dataPM.packers == old(dataPM.packers) && treePM.packers == old(treePM.packers)
      ensures Now(Idle) == Recorded(old(Now(Storing(id, blobs))), 0)
    {
      hide IndexFiles.AllDescribed;
      hide MasterIndex.Valid;
      hide PacksOf;
      hide Distinct;
      hide Stored;
      hide AllFit;
      hide Key.Lawful;
      idx.StorePack(id, blobs);
      written := written + [Written(id, blobs)];
      ghost var c := Storing(id, blobs);
      assert [c][0 := Idle] == [Idle];
      assert PacksOf(dataPM.packers) == old(PacksOf(dataPM.packers));
      assert PacksOf(treePM.packers) == old(PacksOf(treePM.packers));
    }

    /** An index that knows only describable locations can be written. */
    lemma Writable(x: Index, i: nat, s: State)
      requires Valid() && Inv(env, s) && i < |idx.idx| && x == idx.idx[i] && |s.view| == |idx.view|
      requires forall t :: s.view[i].Of(t) == idx.view[i].Of(t)
      ensures x.Valid() && x.Content(InvalidBlob) == [] && forall t :: x.NoNullPack(t)
      ensures forall t :: x.Content(t) == idx.view[i].Of(t)
    {
      hide Index.Valid;
      hide Index.Content;
      hide MasterIndex.Valid;
      hide Inv;
      hide Snapshot.Of;
      hide AllOpen;
      hide Apart;
      idx.At(i);
      forall t, pb ensures pb in x.Content(t) ==> pb.packId != NullId() {
        KnowsDescribable(x, i, s, t, pb);
      }
      forall pb ensures pb !in x.Content(InvalidBlob) {
        KnowsDescribable(x, i, s, InvalidBlob, pb);
      }
      IndexFiles.SomeMember(x.Content(InvalidBlob));
    }

    lemma KnowsDescribable(x: Index, i: nat, s: State, t: BlobType, pb: PackedBlob)
      requires x.Valid() && Inv(env, s) && i < |s.view| && s.view[i].Of(t) == x.Content(t)
      ensures pb in x.Content(t) ==> Describable(pb) && pb.blob.handle.tpe == t
    {
      hide Index.Valid;
      hide Index.Content;
      hide Inv;
      hide Snapshot.Of;
      if pb in x.Content(t) {
        assert multiset(x.Content(t))[pb] > 0;
        if pb.blob.handle.tpe != t {
          x.ContentTyped(t, pb);
        }
        InvDescribable(env, s, i, t, pb);
      }
    }

    /** Writes closed indexes as files; `at` says where they are, and s is a state with the same indexes. */
    method SaveIndexes(list: seq<Index>, ghost at: seq<nat>, ghost s: State)
      requires Valid() && Inv(env, s) && |s.view| == |idx.view|
      requires forall i, t :: 0 <= i < |idx.view| ==> s.view[i].Of(t) == idx.view[i].Of(t)
      requires Positioned(at, |idx.idx|) && |list| == |at| && forall k :: 0 <= k < |list| ==> list[k] == idx.idx[at[k]]
      modifies this`indexFiles, this`saved
      ensures Valid() && saved == old(saved) + Selected(idx.view, at)
    {
      hide Index.Valid;
      hide Index.Content;
      hide MasterIndex.Valid;
      hide Inv;
      hide Snapshot.Of;
      hide Key.Lawful;
      hide AllOpen;
      hide Apart;
      for k := 0 to |list|
        invariant Valid() && saved == old(saved) + Selected(idx.view, at)[..k]
      {
        Writable(list[k], at[k], s);
        var r := list[k].Encode();
        ghost var x := idx.view[at[k]];
        assert IndexFiles.Describes(r.value, x);
        indexFiles := indexFiles + [r.value];
        saved := saved + [x];
        assert Selected(idx.view, at)[..k + 1] == Selected(idx.view, at)[..k] + [x];
      }
    }

    /** Closes the indexes that are full, writes them as index files, and merges them. */
    method SaveFullIndex(full: nat -> bool)
      requires Valid() && Inv(env, Now(Idle))
      modifies this`indexFiles, this`saved, idx.Repr
      ensures Valid() && fresh(idx.Repr - old(idx.Repr))
      ensures dataPM.packers == old(dataPM.packers) && treePM.packers == old(treePM.packers)
      ensures Now(Idle) ==
              old(Now(Idle)).(view := idx.view, indexFiles := old(saved) + NewlyClosed(old(idx.view), full))
      ensures MergedView(Closed(old(idx.view), full), idx.view)
    {
      hide MasterIndex.Valid;
      hide PacksOf;
      hide Distinct;
      hide MergedView;
      hide NewlyClosed;
      hide Inv;
      hide Key.Lawful;
      ghost var s := Now(Idle);
      var list, at := idx.FinalizeIndexes(full);
      assert idx.view == Closed(s.view, full);
      NewlyClosedAt(s.view, full, at);
      assert Selected(idx.view, at) == NewlyClosed(s.view, full);
      SaveIndexes(list, at, s);
      ghost var from := idx.MergeFinalIndexes();
      assert PacksOf(dataPM.packers) == old(PacksOf(dataPM.packers));
      assert PacksOf(treePM.packers) == old(PacksOf(treePM.packers));
    }

    /** Finishes a packer and writes it to the backend, which refuses a different file under the same name. */
    method Upload(t: BlobType, p: Packer, ghost flush: bool, nonce: seq<byte>) returns (ok: bool, id: Id)
      requires Valid() && Held(p) && |nonce| == NONCE_SIZE && AllStorable(p.blobs)
      requires flush || |p.file| >= MIN_PACK_SIZE
      modifies this`backend, p
      ensures Valid() && p.blobs == old(p.blobs) && p !in idx.Repr
      ensures Now(Idle).data == old(Now(Idle)).data && Now(Idle).tree == old(Now(Idle)).tree
      ensures !ok <==> Refused(env, old(backend), old(PackOf(p)), nonce)
      ensures !ok ==> backend == old(backend)
      ensures ok ==> var s := old(Now(Closing(t, PackOf(p), flush)));
                     CanUpload(env, s, 0, nonce) && Now(Storing(id, p.blobs)) == Uploaded(env, s, 0, nonce)
    {
      hide IndexFiles.AllDescribed;
      hide MasterIndex.Valid;
      hide PacksOf;
      hide Distinct;
      hide Packed;
      hide Key.Lawful;
      hide TotalLength;
      hide Consecutive;
      ghost var c := Closing(t, PackOf(p), flush);
      var n := p.Finalize(nonce);
      id := env.hash(p.file);
      assert PacksOf(dataPM.packers) == old(PacksOf(dataPM.packers));
      assert PacksOf(treePM.packers) == old(PacksOf(treePM.packers));
      if id == NullId() || (id in backend && backend[id] != p.file) {
        return false, id;
      }
      backend := backend[id := p.file];
      ok := true;
      assert [c][0 := Storing(id, p.blobs)] == [Storing(id, p.blobs)];
    }

    /** Writes a packer and records it; indexes that are full are closed and merged, unless this is switched off. */
    method SavePacker(t: BlobType, p: Packer, ghost flush: bool, nonce: seq<byte>, autoIndex: bool, full: nat -> bool)
      returns (ok: bool)
      requires Valid() && Held(p) && |nonce| == NONCE_SIZE
      requires Inv(env, Now(Closing(t, PackOf(p), flush))) && (flush || |p.file| >= MIN_PACK_SIZE)
      modifies this`backend, this`written, this`indexFiles, this`saved, p, idx.Repr
      ensures Valid() && fresh(idx.Repr - old(idx.Repr))
      ensures dataPM.packers == old(dataPM.packers) && treePM.packers == old(treePM.packers)
      ensures Now(Idle).data == old(Now(Idle)).data && Now(Idle).tree == old(Now(Idle)).tree
      ensures ok ==> Inv(env, Now(Idle))
      ensures !ok ==> Refused(env, backend, old(PackOf(p)), nonce) && backend == old(backend)
    {
      hide Valid;
      hide Inv;
      hide AllFit;
      hide AllStorable;
      hide CanUpload;
      hide Uploaded;
      hide Recorded;
      hide MergedView;
      hide PacksOf;
      hide Key.Lawful;
      ghost var s0 := Now(Closing(t, PackOf(p), flush));
      ClosingFits(env, s0);
      LawfulKey();
      var id;
      ok, id := Upload(t, p, flush, nonce);
      if !ok {
        return;
      }
      ghost var s1 := Now(Storing(id, p.blobs));
      UploadInv(env, s0, nonce);
      Record(id, p.blobs);
      ghost var s2 := Now(Idle);
      RecordInv(env, s1);
      if autoIndex {
        SaveFullIndex(full);
        MergeInv(env, s2, full, idx.view);
      }
    }

    lemma LawfulKey()
      requires Valid()
      ensures env.key.Lawful()
    {
    }
  
    /** Seals a blob into an open packer, and writes the packer if that makes it large enough. */
    method SaveAndEncrypt(t: BlobType, data: seq<byte>, id: Id, nonce: seq<byte>, headerNonce: seq<byte>,
                          autoIndex: bool, full: nat -> bool) returns (ok: bool)
      requires Valid() && Storable(t) && |nonce| == |headerNonce| == NONCE_SIZE
      requires Inv(env, Now(Claiming(BlobHandle(id, t), data)))
      modifies this`backend, this`written, this`indexFiles, this`saved
      modifies dataPM, treePM, dataPM.packers, treePM.packers, idx.Repr
      ensures Valid() && (ok ==> Inv(env, Now(Idle)))
      ensures !ok ==> Refused(env, old(backend),
                              Appended(env, NextPack(old(Now(Idle)), t), BlobHandle(id, t), data, nonce), headerNonce)
    {
      hide Valid;
      hide Inv;
      hide Refused;
      hide Appended;
      hide Found;
      hide NextPack;
      hide Added;
      hide PutBack;
      hide PacksOf;
      hide Key.Lawful;
      LawfulKey();
      var h := BlobHandle(id, t);
      FindInv(env, Now(Claiming(h, data)));
      var p := Find(h, data);
      AddInv(env, Now(Packing(h, data, PackOf(p))), nonce);
      Append(p, h, data, nonce);
      if p.bytes < MIN_PACK_SIZE {
        PutInv(env, Now(Closing(t, PackOf(p), false)));
        Put(t, p, false);
        ok := true;
      } else {
        ok := SavePacker(t, p, false, headerNonce, autoIndex, full);
      }
    }
  
    /** Claims a handle: it becomes pending unless it is known. */
    method Claim(t: BlobType, data: seq<byte>, id: Id, storeDuplicate: bool) returns (known: bool)
      requires Valid()
      modifies this`contents, this`first, this`again, idx`pendingBlobs
      ensures Valid() && (known <==> old(Has(Now(Idle), BlobHandle(id, t))))
      ensures var h := BlobHandle(id, t);
              Now(if !known || storeDuplicate then Claiming(h, data) else Idle) ==
              Begun(old(Now(Idle)), 0, h, data, storeDuplicate)
    {
      hide PacksOf;
      hide IndexFiles.AllDescribed;
      hide MasterIndex.Valid;
      hide LookedUp;
      hide AllOpen;
      hide Apart;
      hide Key.Lawful;
      var h := BlobHandle(id, t);
      var added := idx.AddPending(h);
      known := !added;
      contents := contents[h := data];
      if added {
        first := first + multiset{h};
      } else if storeDuplicate {
        again := again + multiset{h};
      }
      assert [Idle][0 := Claiming(h, data)] == [Claiming(h, data)];
      assert PacksOf(dataPM.packers) == old(PacksOf(dataPM.packers));
      assert PacksOf(treePM.packers) == old(PacksOf(treePM.packers));
    }

    /**
     Saves a blob under its hash.  Whether it was known is what the index had to
     say before; only an unknown blob is packed, unless duplicates are wanted.
     */
    method SaveBlob(t: BlobType, buf: seq<byte>, id: Id, storeDuplicate: bool, nonce: seq<byte>, headerNonce: seq<byte>,
                    autoIndex: bool, full: nat -> bool) returns (newID: Id, known: bool, ok: bool)
      requires Valid() && Inv(env, Now(Idle)) && Saveable(env, contents, t, id, buf)
      requires |nonce| == |headerNonce| == NONCE_SIZE
      modifies this, dataPM, treePM, dataPM.packers, treePM.packers, idx.Repr
      ensures Valid() && newID == env.hash(buf) && (known <==> old(Has(Now(Idle), BlobHandle(newID, t))))
      ensures ok ==> Inv(env, Now(Idle)) && contents == old(contents)[BlobHandle(newID, t) := buf]
      ensures known && !storeDuplicate ==> ok && Now(Idle) == old(Now(Idle)).(contents := contents)
      ensures !ok ==> Refused(env, old(backend),
                              Appended(env, NextPack(old(Now(Idle)), t), BlobHandle(newID, t), buf, nonce), headerNonce)
    {
      hide AllOpen;
      hide Apart;
      hide MasterIndex.Valid;
      hide IndexFiles.AllDescribed;
      hide PacksOf;
      hide Inv;
      hide Refused;
      hide Appended;
      hide Has;
      hide Key.Lawful;
      LawfulKey();
      newID := if id == NullId() then env.hash(buf) else id;
      BeginInv(env, Now(Idle), t, id, buf, storeDuplicate);
      known := Claim(t, buf, newID, storeDuplicate);
      ok := true;
      if !known || storeDuplicate {
        ok := SaveAndEncrypt(t, buf, newID, nonce, headerNonce, autoIndex, full);
      }
    }

    /** Takes the first open packer out of the list, for writing. */
    method TakeFirst(t: BlobType) returns (p: Packer)
      requires Valid() && Manager(t).packers != []
      modifies Manager(t)
      ensures Valid() && Held(p) && p == old(Manager(t).packers)[0]
              && Manager(t).packers == old(Manager(t).packers)[1..]
      ensures Now(Closing(t, PackOf(p), true)) == Flushed(old(Now(Idle)), 0, t)
    {
      hide IndexFiles.AllDescribed;
      hide MasterIndex.Valid;
      hide PacksOf;
      hide Key.Lawful;
      hide TotalLength;
      hide Consecutive;
      var pm := Manager(t);
      p := pm.packers[0];
      pm.packers := pm.packers[1..];
      ghost var c := Closing(t, PackOf(p), true);
      assert [Idle][0 := c] == [c];
      assert PacksOf(pm.packers) == old(PacksOf(Manager(t).packers))[1..];
    }

    /** Writes all open packers of one type. */
    method FlushType(t: BlobType, nonce: nat -> seq<byte>, autoIndex: bool, full: nat -> bool) returns (ok: bool)
      requires Valid() && Inv(env, Now(Idle)) && Storable(t) && forall n :: |nonce(n)| == NONCE_SIZE
      modifies this`backend, this`written, this`indexFiles, this`saved, Manager(t), Manager(t).packers, idx.Repr
      ensures Valid() && fresh(idx.Repr - old(idx.Repr))
      ensures Now(Idle).data == (if t == TreeBlob then old(Now(Idle)).data else Now(Idle).data)
      ensures Now(Idle).tree == (if t == TreeBlob then Now(Idle).tree else old(Now(Idle)).tree)
      ensures ok ==> Inv(env, Now(Idle)) && Manager(t).packers == []
      ensures !ok ==> SomeRefused(env, backend, Open(old(Now(Idle)), t), nonce)
    {
      hide Valid;
      hide Inv;
      hide Flushed;
      hide Refused;
      hide Key.Lawful;
      hide PacksOf;
      ok := true;
      while ok && |Manager(t).packers| > 0
        invariant Valid() && fresh(idx.Repr - old(idx.Repr)) && (ok ==> Inv(env, Now(Idle)))
        invariant Within(Manager(t).packers, old(Manager(t).packers))
        invariant Within(Open(Now(Idle), t), Open(old(Now(Idle)), t))
        invariant t == TreeBlob ==> Now(Idle).data == old(Now(Idle)).data
        invariant t != TreeBlob ==> Now(Idle).tree == old(Now(Idle)).tree
        invariant !ok ==> SomeRefused(env, backend, Open(old(Now(Idle)), t), nonce)
        decreases ok, |Manager(t).packers|
      {
        LawfulKey();
        FlushInv(env, Now(Idle), t);
        ghost var open, s0 := Manager(t).packers, Now(Idle);
        var p := TakeFirst(t);
        assert p in open && Within(Manager(t).packers, open);
        FlushedWithin(s0, t, PackOf(p));
        ok := SavePacker(t, p, true, nonce(|Manager(t).packers|), autoIndex, full);
      }
    }

    /** Writes all open packers: afterwards everything saved is in recorded packs. */
    method FlushPacks(nonce: nat -> seq<byte>, autoIndex: bool, full: nat -> bool) returns (ok: bool)
      requires Valid() && Inv(env, Now(Idle)) && forall n :: |nonce(n)| == NONCE_SIZE
      modifies this`backend, this`written, this`indexFiles, this`saved
      modifies dataPM, treePM, dataPM.packers, treePM.packers, idx.Repr
      ensures Valid() && contents == old(contents) && fresh(idx.Repr - old(idx.Repr))
      ensures ok ==> Inv(env, Now(Idle)) && Quiet(Now(Idle))
      ensures ok || SomeRefused(env, backend, old(Now(Idle)).data, nonce)
              || SomeRefused(env, backend, old(Now(Idle)).tree, nonce)
    {
      hide IndexFiles.AllDescribed;
      hide Inv;
      hide Key.Lawful;
      hide MasterIndex.Valid;
      hide SomeRefused;
      hide AllOpen;
      hide Distinct;
      ok := FlushType(DataBlob, nonce, autoIndex, full);
      if ok {
        ok := FlushType(TreeBlob, nonce, autoIndex, full);
      }
    }

    /** Writes all open packers, and then all open indexes, unless this is switched off. */
    method Flush(nonce: nat -> seq<byte>, autoIndex: bool, full: nat -> bool) returns (ok: bool)
      requires Valid() && Inv(env, Now(Idle)) && forall n :: |nonce(n)| == NONCE_SIZE
      modifies this`backend, this`written, this`indexFiles, this`saved
      modifies dataPM, treePM, dataPM.packers, treePM.packers, idx.Repr
      ensures Valid() && contents == old(contents)
      ensures ok ==> Inv(env, Now(Idle)) && Quiet(Now(Idle)) && (autoIndex ==> AllFinal(idx.view))
      ensures ok || SomeRefused(env, backend, old(Now(Idle)).data, nonce)
              || SomeRefused(env, backend, old(Now(Idle)).tree, nonce)
    {
      hide Valid;
      hide Inv;
      hide SomeRefused;
      hide PacksOf;
      hide MergedView;
      hide NewlyClosed;
      hide Key.Lawful;
      ok := FlushPacks(nonce, autoIndex, full);
      if ok && autoIndex {
        LawfulKey();
        ghost var s := Now(Idle);
        SaveFullIndex(_ => true);
        MergeInv(env, s, _ => true, idx.view);
        AllClosed(s.view, idx.view);
      }
    }

    /**
     Loads a blob.  What is returned has the right hash; a blob that is not
     indexed is not found; and after a flush every saved blob is returned as it
     was saved, whatever packs the cache holds.
     */
    method LoadBlob(t: BlobType, id: Id, cache: Option<Id -> bool>) returns (r: Loaded)
      requires Valid()
      ensures r.Plain? ==> env.hash(r.bytes) == id
      ensures r.NotFound? <==> !Indexed(idx.view, BlobHandle(id, t))
      ensures var h := BlobHandle(id, t);
              Inv(env, Now(Idle)) && Quiet(Now(Idle)) && h in contents ==> r == Plain(contents[h])
    {
      hide IndexFiles.AllDescribed;
      hide LookedUp;
      hide AllYield;
      hide Loadable;
      hide Inv;
      hide PacksOf;
      hide Key.Lawful;
      hide Quiet;
      hide MasterIndex.Valid;
      var h := BlobHandle(id, t);
      ghost var s := Now(Idle);
      if Inv(env, s) && Quiet(s) && h in contents {
        QuietLoadable(env, s, h);
        LoadableYields(env, s, h, contents[h]);
      }
      var pbs := idx.Lookup(h);
      if |pbs| == 0 {
        return NotFound;
      }
      assert pbs[0] in multiset(pbs);
      r := LoadAny(env, backend, id, cache, pbs);
    }
  }

  ghost predicate AllFinal(view: seq<Snapshot>) {
    forall i :: 0 <= i < |view| ==> view[i].final
  }

  /** After closing all indexes and merging them only final ones are left. */
  lemma AllClosed(view: seq<Snapshot>, merged: seq<Snapshot>)
    requires MergedView(Closed(view, _ => true), merged)
    ensures AllFinal(merged)
  {
    hide MergesTo;
    IndexFiles.NoneOpen(Closed(view, _ => true)[1..]);
  }

  /** Every location yields the given plaintext. */
  ghost predicate AllYield(e: Env, backend: map<Id, seq<byte>>, id: Id, pbs: multiset<PackedBlob>, bytes: seq<byte>) {
    forall pb :: pb in pbs ==> Try(e, backend, id, pb) == Data(bytes)
  }

  lemma LoadableYields(e: Env, s: State, h: BlobHandle, bytes: seq<byte>)
    requires Loadable(e, s, h, bytes)
    ensures LookedUp(s.view, h) != multiset{} && AllYield(e, s.backend, h.id, LookedUp(s.view, h), bytes)
  {
    hide LookedUp;
  }

  /** Loads from the first good location, cached packs first. */
  method LoadAny(e: Env, backend: map<Id, seq<byte>>, id: Id, cache: Option<Id -> bool>, pbs: seq<PackedBlob>)
    returns (r: Loaded)
    requires pbs != []
    ensures r.Plain? ==> e.hash(r.bytes) == id
    ensures !r.NotFound?
    ensures forall bytes :: AllYield(e, backend, id, multiset(pbs), bytes) ==> r == Plain(bytes)
  {
    hide Cached;
    hide Try;
    var blobs := new PackedBlob[|pbs|](i requires 0 <= i < |pbs| => pbs[i]);
    assert blobs[..] == pbs;
    SortCachedPacksFirst(cache, blobs);
    Reordered(cache, pbs, blobs[..]);
    r := LoadFrom(e, backend, id, blobs);
    forall bytes | AllYield(e, backend, id, multiset(pbs), bytes) ensures r == Plain(bytes) {
      forall k | 0 <= k < blobs.Length ensures Try(e, backend, id, blobs[k]) == Data(bytes) {
        assert blobs[..][k] in multiset(blobs[..]);
      }
      assert Try(e, backend, id, blobs[0]) == Data(bytes);
    }
  }

  /**
   A load after any run of any number of callers: once everything is flushed, a
   blob that some caller saved is returned exactly as it was saved.
   */
  method LoadAfterRun(e: Env, ghost run: seq<State>, ghost acts: seq<Action>, ghost i: nat, ghost j: nat,
                      backend: map<Id, seq<byte>>, h: BlobHandle, cache: Option<Id -> bool>, pbs: seq<PackedBlob>)
    returns (r: Loaded)
    requires IsRun(e, run, acts) && i < j <= |acts| && Saves(e, acts[i], h) && Quiet(run[j])
    requires backend == run[j].backend && multiset(pbs) == LookedUp(run[j].view, h)
    ensures r == Plain(acts[i].bytes)
  {
    hide Initial;
    hide Steps;
    hide LookedUp;
    hide Loadable;
    hide AllYield;
    SavedLoadable(e, run, acts, i, j, h);
    LoadableYields(e, run[j], h, acts[i].bytes);
    assert pbs != [];
    r := LoadAny(e, backend, h.id, cache, pbs);
  }

  lemma Reordered(cache: Option<Id -> bool>, pbs: seq<PackedBlob>, sorted: seq<PackedBlob>)
    requires cache.None? ==> sorted == pbs
    requires cache.Some? ==> sorted == Cached(cache.value, true, pbs) + Cached(cache.value, false, pbs)
    ensures multiset(sorted) == multiset(pbs)
  {
    hide Cached;
    if cache.Some? {
      CachedPartitions(cache.value, pbs);
    }
  }

  ghost predicate Within<T>(ps: seq<T>, qs: seq<T>) {
    forall p :: p in ps ==> p in qs
  }

  lemma FlushedWithin(s: State, t: BlobType, p: Pack)
    requires |s.callers| == 1 && Open(s, t) != [] && Flushed(s, 0, t).callers == [Closing(t, p, true)]
    ensures p in Open(s, t) && Within(Open(Flushed(s, 0, t), t), Open(s, t))
    ensures t == TreeBlob ==> Flushed(s, 0, t).data == s.data
    ensures t != TreeBlob ==> Flushed(s, 0, t).tree == s.tree
  {
    assert Flushed(s, 0, t).callers[0] == Closing(t, Open(s, t)[0], true);
  }

  /** The backend refused one of the packs. */
  ghost predicate SomeRefused(e: Env, backend: map<Id, seq<byte>>, packs: seq<Pack>, nonce: nat -> seq<byte>) {
    exists p, n :: p in packs && Refused(e, backend, p, nonce(n))
  }
}
