/**
 Repacking: workers share the set of blobs to keep.  A worker looks at the blobs
 of a pack, reads those that are still wanted, claims them under a lock and saves
 what it claimed.
 */
module Repacking {
  import opened Blobs
  import opened Crypto
  import opened Packs

  datatype Save = Save(h: BlobHandle, plain: seq<byte>)

  /** A worker, and what is left of its pack; the blob it is at is the first of `rest`. */
  datatype Worker =
    | Free
    | Looking(file: seq<byte>, rest: seq<Blob>)
    | Reading(file: seq<byte>, rest: seq<Blob>)
    | Rechecking(file: seq<byte>, rest: seq<Blob>, plain: seq<byte>)
    | Saving(file: seq<byte>, rest: seq<Blob>, plain: seq<byte>)

  datatype State = State(queue: set<Id>, workers: seq<Worker>, keep: set<BlobHandle>, saved: seq<Save>)

  /** The blobs of a pack, if it can be listed. */
  function Listed(e: Env, file: seq<byte>): Option<seq<Blob>> {
    match Listing(e.key, file, |file|)
    case Ok(found) => Some(found.0)
    case Err(_) => None
  }

  function Handles(blobs: seq<Blob>): set<BlobHandle> {
    set b | b in blobs :: b.handle
  }

  /** The pack lists the handle. */
  ghost predicate Lists(e: Env, backend: map<Id, seq<byte>>, id: Id, h: BlobHandle) {
    id in backend && Listed(e, backend[id]).Some? && h in Handles(Listed(e, backend[id]).value)
  }

  /** Some pack lists the handle. */
  ghost predicate Occurs(e: Env, backend: map<Id, seq<byte>>, packs: set<Id>, h: BlobHandle) {
    exists id :: id in packs && Lists(e, backend, id, h)
  }

  /** The plaintext of a blob in a pack: it must be readable in full and have the right hash. */
  function ReadBlob(e: Env, file: seq<byte>, b: Blob): Option<seq<byte>> {
    if b.offset + b.length > |file| || b.length < NONCE_SIZE then None
    else
      match e.key.Opened(file[b.offset..b.offset + b.length])
      case None => None
      case Some(p) => if e.hash(p) == b.handle.id then Some(p) else None
  }

  function Rest(w: Worker): seq<Blob> {
    if w.Free? then [] else w.rest
  }

  function AtBlob(s: State, i: nat, w: Worker): State
    requires i < |s.workers|
  {
    s.(workers := s.workers[i := w])
  }

  predicate Busy(s: State, i: nat) {
    i < |s.workers| && !s.workers[i].Free? && s.workers[i].rest != []
  }

  // ---------------------------------------------------------------- steps

  /** A worker gets a downloaded pack. */
  function Fetched(s: State, i: nat, id: Id, file: seq<byte>, blobs: seq<Blob>): State
    requires i < |s.workers|
  {
    AtBlob(s, i, Looking(file, blobs)).(queue := s.queue - {id})
  }

  /** The first check: a blob that is not wanted is passed over. */
  function Looked(s: State, i: nat): State
    requires Busy(s, i)
  {
    var w := s.workers[i];
    if w.rest[0].handle in s.keep then AtBlob(s, i, Reading(w.file, w.rest))
    else AtBlob(s, i, Looking(w.file, w.rest[1..]))
  }

  function DoneReading(s: State, i: nat, plain: seq<byte>): State
    requires Busy(s, i)
  {
    AtBlob(s, i, Rechecking(s.workers[i].file, s.workers[i].rest, plain))
  }

  /** The second check: the blob is claimed, unless another worker was faster. */
  function Claimed(s: State, i: nat): State
    requires Busy(s, i) && s.workers[i].Rechecking?
  {
    var w := s.workers[i];
    var h := w.rest[0].handle;
    if h in s.keep then AtBlob(s, i, Saving(w.file, w.rest, w.plain)).(keep := s.keep - {h})
    else AtBlob(s, i, Looking(w.file, w.rest[1..]))
  }

  function Saved(s: State, i: nat): State
    requires Busy(s, i) && s.workers[i].Saving?
  {
    var w := s.workers[i];
    AtBlob(s, i, Looking(w.file, w.rest[1..])).(saved := s.saved + [Save(w.rest[0].handle, w.plain)])
  }

  // ---------------------------------------------------------------- every wanted blob is in one place

  ghost function SavingCount(workers: seq<Worker>, h: BlobHandle): nat {
    if workers == [] then 0
    else SavingCount(workers[..|workers| - 1], h) + One(Holding(workers[|workers| - 1], h))
  }

  ghost predicate Holding(w: Worker, h: BlobHandle) {
    w.Saving? && w.rest != [] && w.rest[0].handle == h
  }

  ghost function SavedCount(saved: seq<Save>, h: BlobHandle): nat {
    if saved == [] then 0 else SavedCount(saved[..|saved| - 1], h) + One(saved[|saved| - 1].h == h)
  }

  lemma {:induction false} SavingCountUpdate(workers: seq<Worker>, i: nat, w: Worker, h: BlobHandle)
    requires i < |workers|
    ensures SavingCount(workers[i := w], h) + One(Holding(workers[i], h)) ==
            SavingCount(workers, h) + One(Holding(w, h))
  {
    hide Holding;
    var last := |workers| - 1;
    if i == last {
      assert workers[i := w][..last] == workers[..last];
    } else {
      SavingCountUpdate(workers[..last], i, w, h);
      assert workers[i := w][..last] == workers[..last][i := w];
    }
  }

  lemma SavedCountPush(saved: seq<Save>, x: Save, h: BlobHandle)
    ensures SavedCount(saved + [x], h) == SavedCount(saved, h) + One(x.h == h)
  {
    assert (saved + [x])[..|saved|] == saved;
  }

  /** A wanted blob is still wanted, or being saved by one worker, or saved, once. */
  ghost predicate Placed(s: State, keep: set<BlobHandle>, h: BlobHandle) {
    One(h in s.keep) + SavingCount(s.workers, h) + SavedCount(s.saved, h) == One(h in keep)
  }

  lemma LookedPlaced(s: State, i: nat, keep: set<BlobHandle>, h: BlobHandle)
    requires Busy(s, i) && s.workers[i].Looking? && Placed(s, keep, h)
    ensures Placed(Looked(s, i), keep, h)
  {
    hide SavingCount;
    hide SavedCount;
    SavingCountUpdate(s.workers, i, Looked(s, i).workers[i], h);
  }

  lemma ClaimedPlaced(s: State, i: nat, keep: set<BlobHandle>, h: BlobHandle)
    requires Busy(s, i) && s.workers[i].Rechecking? && Placed(s, keep, h)
    ensures Placed(Claimed(s, i), keep, h)
  {
    hide SavingCount;
    hide SavedCount;
    SavingCountUpdate(s.workers, i, Claimed(s, i).workers[i], h);
  }

  lemma SavedPlaced(s: State, i: nat, keep: set<BlobHandle>, h: BlobHandle)
    requires Busy(s, i) && s.workers[i].Saving? && Placed(s, keep, h)
    ensures Placed(Saved(s, i), keep, h)
  {
    hide SavingCount;
    hide SavedCount;
    var w := s.workers[i];
    SavingCountUpdate(s.workers, i, Saved(s, i).workers[i], h);
    SavedCountPush(s.saved, Save(w.rest[0].handle, w.plain), h);
  }

  /** A step that claims and saves nothing. */
  lemma MovedPlaced(s: State, i: nat, w: Worker, keep: set<BlobHandle>, h: BlobHandle)
    requires i < |s.workers| && !s.workers[i].Saving? && !w.Saving? && Placed(s, keep, h)
    ensures Placed(AtBlob(s, i, w), keep, h)
  {
    hide SavingCount;
    hide SavedCount;
    SavingCountUpdate(s.workers, i, w, h);
  }

  // ---------------------------------------------------------------- what is saved comes from the packs

  /** The blob is listed in one of the packs, whose file is given. */
  ghost predicate FromPack(e: Env, backend: map<Id, seq<byte>>, packs: set<Id>, file: seq<byte>, b: Blob) {
    exists id ::
      id in packs && id in backend && backend[id] == file && Listed(e, file).Some? && b in Listed(e, file).value
  }

  lemma FromPackOccurs(e: Env, backend: map<Id, seq<byte>>, packs: set<Id>, file: seq<byte>, b: Blob)
    requires FromPack(e, backend, packs, file, b)
    ensures Occurs(e, backend, packs, b.handle)
  {
    hide Listed;
    var id :|
      id in packs && id in backend && backend[id] == file && Listed(e, file).Some? && b in Listed(e, file).value;
    assert Lists(e, backend, id, b.handle);
  }

  ghost predicate AllFromPack(e: Env, backend: map<Id, seq<byte>>, packs: set<Id>, file: seq<byte>, blobs: seq<Blob>) {
    forall b :: b in blobs ==> FromPack(e, backend, packs, file, b)
  }

  ghost predicate WorkerOk(e: Env, backend: map<Id, seq<byte>>, packs: set<Id>, w: Worker) {
    && (!w.Free? ==> AllFromPack(e, backend, packs, w.file, w.rest))
    && (w.Reading? ==> w.rest != [])
    && (w.Rechecking? ==> w.rest != [] && ReadBlob(e, w.file, w.rest[0]) == Some(w.plain))
    && (w.Saving? ==> w.rest != [] && ReadBlob(e, w.file, w.rest[0]) == Some(w.plain))
  }

  /** The saved plaintext was read from one of the packs, and has the right hash. */
  ghost predicate SaveOk(e: Env, backend: map<Id, seq<byte>>, packs: set<Id>, x: Save) {
    && e.hash(x.plain) == x.h.id
    && exists file, b ::
         FromPack(e, backend, packs, file, b) && b.handle == x.h && ReadBlob(e, file, b) == Some(x.plain)
  }

  ghost predicate ReadsWanted(w: Worker, keep: set<BlobHandle>) {
    w.Reading? && w.rest != [] ==> w.rest[0].handle in keep
  }

  ghost predicate Genuine(e: Env, backend: map<Id, seq<byte>>, packs: set<Id>, keep: set<BlobHandle>, s: State) {
    && (forall i :: 0 <= i < |s.workers| ==> WorkerOk(e, backend, packs, s.workers[i]))
    && (forall i :: 0 <= i < |s.workers| ==> ReadsWanted(s.workers[i], keep))
    && (forall k :: 0 <= k < |s.saved| ==> SaveOk(e, backend, packs, s.saved[k]))
    && s.queue <= packs && s.keep <= keep
    && (forall h :: h in keep && h !in s.keep ==> Occurs(e, backend, packs, h))
  }

  // ---------------------------------------------------------------- nothing wanted is passed over

  /** The handle is still to come, in a pack that waits or in what is left of one. */
  ghost predicate Ahead(e: Env, backend: map<Id, seq<byte>>, s: State, h: BlobHandle) {
    || (exists id :: id in s.queue && Lists(e, backend, id, h))
    || (exists i :: 0 <= i < |s.workers| && InRest(s.workers[i], h))
  }

  ghost predicate InRest(w: Worker, h: BlobHandle) {
    h in Handles(Rest(w))
  }

  ghost predicate Covered(e: Env, backend: map<Id, seq<byte>>, packs: set<Id>, s: State) {
    forall h :: h in s.keep && Occurs(e, backend, packs, h) ==> Ahead(e, backend, s, h)
  }

  /** Passing over a blob that is no longer wanted. */
  lemma PassCovered(e: Env, backend: map<Id, seq<byte>>, packs: set<Id>, s: State, s1: State, i: nat)
    requires Covered(e, backend, packs, s) && i < |s.workers| && s1.queue == s.queue && s1.keep <= s.keep
    requires |s1.workers| == |s.workers| && forall j :: 0 <= j < |s.workers| && j != i ==> s1.workers[j] == s.workers[j]
    requires forall h :: h in s1.keep && InRest(s.workers[i], h) ==> InRest(s1.workers[i], h)
    ensures Covered(e, backend, packs, s1)
  {
    hide InRest;
    hide Occurs;
    hide Lists;
    forall h | h in s1.keep && Occurs(e, backend, packs, h) ensures Ahead(e, backend, s1, h) {
      assert Ahead(e, backend, s, h);
      if !exists id :: id in s.queue && Lists(e, backend, id, h) {
        var j :| 0 <= j < |s.workers| && InRest(s.workers[j], h);
        assert InRest(s1.workers[j], h);
      }
    }
  }

  lemma FetchCovered(e: Env, backend: map<Id, seq<byte>>, packs: set<Id>, s: State, i: nat, id: Id)
    requires Covered(e, backend, packs, s) && i < |s.workers| && s.workers[i].Free? && id in s.queue
    requires id in backend && Listed(e, backend[id]).Some?
    ensures Covered(e, backend, packs, Fetched(s, i, id, backend[id], Listed(e, backend[id]).value))
  {
    hide Occurs;
    hide Listed;
    var s1 := Fetched(s, i, id, backend[id], Listed(e, backend[id]).value);
    forall h | h in s1.keep && Occurs(e, backend, packs, h) ensures Ahead(e, backend, s1, h) {
      assert Ahead(e, backend, s, h);
      if Lists(e, backend, id, h) {
        assert InRest(s1.workers[i], h);
      } else if exists id1 :: id1 in s.queue && Lists(e, backend, id1, h) {
        var id1 :| id1 in s.queue && Lists(e, backend, id1, h);
        assert id1 in s1.queue;
      } else {
        var j :| 0 <= j < |s.workers| && InRest(s.workers[j], h);
        assert InRest(s1.workers[j], h);
      }
    }
  }

  lemma HandlesRest(blobs: seq<Blob>)
    requires blobs != []
    ensures forall h :: h in Handles(blobs) && h != blobs[0].handle ==> h in Handles(blobs[1..])
    ensures forall b :: b in blobs[1..] ==> b in blobs
  {
    assert blobs == [blobs[0]] + blobs[1..];
  }

  // ---------------------------------------------------------------- termination

  function Weight(w: Worker): nat {
    match w
    case Free => 0
    case Looking(_, rest) => 4 * |rest| + 1
    case Reading(_, rest) => 4 * |rest|
    case Rechecking(_, rest, _) => if rest == [] then 0 else 4 * |rest| - 1
    case Saving(_, rest, _) => if rest == [] then 0 else 4 * |rest| - 2
  }

  function Work(workers: seq<Worker>): nat {
    if workers == [] then 0 else Work(workers[..|workers| - 1]) + Weight(workers[|workers| - 1])
  }

  lemma {:induction false} WorkUpdate(workers: seq<Worker>, i: nat, w: Worker)
    requires i < |workers|
    ensures Work(workers[i := w]) + Weight(workers[i]) == Work(workers) + Weight(w)
  {
    hide Weight;
    var last := |workers| - 1;
    if i == last {
      assert workers[i := w][..last] == workers[..last];
    } else {
      WorkUpdate(workers[..last], i, w);
      assert workers[i := w][..last] == workers[..last][i := w];
    }
  }

  // ---------------------------------------------------------------- every run

  ghost predicate Inv(e: Env, backend: map<Id, seq<byte>>, packs: set<Id>, keep: set<BlobHandle>, s: State) {
    && (forall h :: Placed(s, keep, h)) && Genuine(e, backend, packs, keep, s) && Covered(e, backend, packs, s)
  }

  lemma StartInv(e: Env, backend: map<Id, seq<byte>>, packs: set<Id>, keep: set<BlobHandle>, n: nat)
    ensures Inv(e, backend, packs, keep, State(packs, seq(n, _ => Free), keep, []))
  {
    hide Lists;
    hide WorkerOk;
    var s := State(packs, seq(n, _ => Free), keep, []);
    forall h ensures Placed(s, keep, h) {
      FreeCount(s.workers, h);
    }
    FreeOk(e, backend, packs);
  }

  lemma FreeOk(e: Env, backend: map<Id, seq<byte>>, packs: set<Id>)
    ensures WorkerOk(e, backend, packs, Free)
  {
  }

  lemma {:induction false} FreeCount(workers: seq<Worker>, h: BlobHandle)
    requires forall i :: 0 <= i < |workers| ==> workers[i] == Free
    ensures SavingCount(workers, h) == 0
  {
    if workers != [] {
      FreeCount(workers[..|workers| - 1], h);
    }
  }

  lemma FetchInv(e: Env, backend: map<Id, seq<byte>>, packs: set<Id>, keep: set<BlobHandle>, s: State, i: nat, id: Id)
    requires Inv(e, backend, packs, keep, s) && i < |s.workers| && s.workers[i].Free? && id in s.queue
    requires id in backend && Listed(e, backend[id]).Some?
    ensures Inv(e, backend, packs, keep, Fetched(s, i, id, backend[id], Listed(e, backend[id]).value))
  {
    hide Placed;
    hide Covered;
    hide Listed;
    hide SaveOk;
    hide Occurs;
    var blobs := Listed(e, backend[id]).value;
    var s1 := Fetched(s, i, id, backend[id], blobs);
    FetchCovered(e, backend, packs, s, i, id);
    forall h ensures Placed(s1, keep, h) {
      MovedPlaced(s, i, Looking(backend[id], blobs), keep, h);
      QueuePlaced(AtBlob(s, i, Looking(backend[id], blobs)), s.queue - {id}, keep, h);
    }
    forall b | b in blobs ensures FromPack(e, backend, packs, backend[id], b) {
    }
  }

  lemma QueuePlaced(s: State, queue: set<Id>, keep: set<BlobHandle>, h: BlobHandle)
    requires Placed(s, keep, h)
    ensures Placed(s.(queue := queue), keep, h)
  {
  }

  lemma LookInv(e: Env, backend: map<Id, seq<byte>>, packs: set<Id>, keep: set<BlobHandle>, s: State, i: nat)
    requires Inv(e, backend, packs, keep, s) && Busy(s, i) && s.workers[i].Looking?
    ensures Inv(e, backend, packs, keep, Looked(s, i))
  {
    hide Placed;
    hide Covered;
    hide SaveOk;
    hide Occurs;
    hide FromPack;
    var s1 := Looked(s, i);
    assert WorkerOk(e, backend, packs, s.workers[i]);
    HandlesRest(s.workers[i].rest);
    forall h ensures Placed(s1, keep, h) {
      LookedPlaced(s, i, keep, h);
    }
    PassCovered(e, backend, packs, s, s1, i);
  }

  lemma ReadInv(e: Env, backend: map<Id, seq<byte>>, packs: set<Id>, keep: set<BlobHandle>, s: State, i: nat,
                plain: seq<byte>)
    requires Inv(e, backend, packs, keep, s) && Busy(s, i) && s.workers[i].Reading?
    requires ReadBlob(e, s.workers[i].file, s.workers[i].rest[0]) == Some(plain)
    ensures Inv(e, backend, packs, keep, DoneReading(s, i, plain))
  {
    hide Placed;
    hide Covered;
    hide SaveOk;
    hide Occurs;
    hide FromPack;
    hide ReadBlob;
    var s1 := DoneReading(s, i, plain);
    assert WorkerOk(e, backend, packs, s.workers[i]);
    forall h ensures Placed(s1, keep, h) {
      MovedPlaced(s, i, s1.workers[i], keep, h);
    }
    PassCovered(e, backend, packs, s, s1, i);
  }

  lemma ClaimInv(e: Env, backend: map<Id, seq<byte>>, packs: set<Id>, keep: set<BlobHandle>, s: State, i: nat)
    requires Inv(e, backend, packs, keep, s) && Busy(s, i) && s.workers[i].Rechecking?
    ensures Inv(e, backend, packs, keep, Claimed(s, i))
  {
    hide Placed;
    hide Covered;
    hide SaveOk;
    hide Occurs;
    hide FromPack;
    hide ReadBlob;
    var s1, w := Claimed(s, i), s.workers[i];
    assert WorkerOk(e, backend, packs, w);
    HandlesRest(w.rest);
    FromPackOccurs(e, backend, packs, w.file, w.rest[0]);
    forall h ensures Placed(s1, keep, h) {
      ClaimedPlaced(s, i, keep, h);
    }
    PassCovered(e, backend, packs, s, s1, i);
  }

  lemma SaveInv(e: Env, backend: map<Id, seq<byte>>, packs: set<Id>, keep: set<BlobHandle>, s: State, i: nat)
    requires Inv(e, backend, packs, keep, s) && Busy(s, i) && s.workers[i].Saving?
    ensures Inv(e, backend, packs, keep, Saved(s, i))
  {
    hide Placed;
    hide Covered;
    hide Occurs;
    hide FromPack;
    hide SavedCount;
    var s1, w := Saved(s, i), s.workers[i];
    assert WorkerOk(e, backend, packs, w);
    HandlesRest(w.rest);
    forall h ensures Placed(s1, keep, h) {
      SavedPlaced(s, i, keep, h);
    }
    assert w.rest[0].handle !in s.keep by {
      HeldNotKept(s, i, keep);
    }
    assert SaveOk(e, backend, packs, Save(w.rest[0].handle, w.plain)) by {
      assert FromPack(e, backend, packs, w.file, w.rest[0]);
    }
    PassCovered(e, backend, packs, s, s1, i);
  }

  /** What a worker is saving is no longer up for claiming. */
  lemma HeldNotKept(s: State, i: nat, keep: set<BlobHandle>)
    requires Busy(s, i) && s.workers[i].Saving? && Placed(s, keep, s.workers[i].rest[0].handle)
    ensures s.workers[i].rest[0].handle !in s.keep
  {
    hide SavingCount;
    SavingCountUpdate(s.workers, i, Free, s.workers[i].rest[0].handle);
  }

  lemma FinishInv(e: Env, backend: map<Id, seq<byte>>, packs: set<Id>, keep: set<BlobHandle>, s: State, i: nat)
    requires Inv(e, backend, packs, keep, s) && i < |s.workers| && s.workers[i].Looking? && s.workers[i].rest == []
    ensures Inv(e, backend, packs, keep, AtBlob(s, i, Free))
  {
    hide Placed;
    hide Covered;
    hide SaveOk;
    hide Occurs;
    hide FromPack;
    hide ReadBlob;
    forall h ensures Placed(AtBlob(s, i, Free), keep, h) {
      MovedPlaced(s, i, Free, keep, h);
    }
    PassCovered(e, backend, packs, s, AtBlob(s, i, Free), i);
  }

  ghost predicate AllFree(workers: seq<Worker>) {
    forall i :: 0 <= i < |workers| ==> workers[i].Free?
  }

  /** Every wanted blob that occurs in the packs was saved once, and no other. */
  ghost predicate SavedOnce(e: Env, backend: map<Id, seq<byte>>, packs: set<Id>, keep: set<BlobHandle>,
                            saved: seq<Save>)
  {
    forall h :: SavedCount(saved, h) == One(h in keep && Occurs(e, backend, packs, h))
  }

  /** What is left of the set to keep: what occurs in none of the packs. */
  ghost predicate LeftOver(e: Env, backend: map<Id, seq<byte>>, packs: set<Id>, keep: set<BlobHandle>,
                           left: set<BlobHandle>)
  {
    forall h :: h in left <==> h in keep && !Occurs(e, backend, packs, h)
  }

  lemma EndInv(e: Env, backend: map<Id, seq<byte>>, packs: set<Id>, keep: set<BlobHandle>, s: State)
    requires Inv(e, backend, packs, keep, s) && s.queue == {} && AllFree(s.workers)
    ensures SavedOnce(e, backend, packs, keep, s.saved) && LeftOver(e, backend, packs, keep, s.keep)
    ensures forall k :: 0 <= k < |s.saved| ==> SaveOk(e, backend, packs, s.saved[k])
  {
    hide SavingCount;
    hide SavedCount;
    hide Occurs;
    hide SaveOk;
    hide WorkerOk;
    hide Lists;
    forall h ensures SavedCount(s.saved, h) == One(h in keep && Occurs(e, backend, packs, h)) {
      FreeCount(s.workers, h);
      assert Placed(s, keep, h);
    }
  }

  /** The packs are intact: they can be downloaded and listed, and their wanted blobs can be read. */
  ghost predicate Intact(e: Env, backend: map<Id, seq<byte>>, packs: set<Id>, keep: set<BlobHandle>) {
    && (forall id :: id in packs ==> id in backend && e.hash(backend[id]) == id && Listed(e, backend[id]).Some?)
    && (forall file, b :: FromPack(e, backend, packs, file, b) && b.handle in keep ==> ReadBlob(e, file, b).Some?)
  }

  lemma IntactReads(e: Env, backend: map<Id, seq<byte>>, packs: set<Id>, keep: set<BlobHandle>, s: State, i: nat)
    requires Inv(e, backend, packs, keep, s) && Busy(s, i) && s.workers[i].Reading? && Intact(e, backend, packs, keep)
    ensures ReadBlob(e, s.workers[i].file, s.workers[i].rest[0]).Some?
  {
    hide Placed;
    hide Covered;
    hide SaveOk;
    hide FromPack;
    hide Occurs;
    var w := s.workers[i];
    assert WorkerOk(e, backend, packs, w) && ReadsWanted(w, keep);
    assert FromPack(e, backend, packs, w.file, w.rest[0]);
  }

  /** One step of a worker that is at some blob. */
  method Advance(e: Env, backend: map<Id, seq<byte>>, ghost packs: set<Id>, ghost keep: set<BlobHandle>, s: State,
                 i: nat)
    returns (ok: bool, s1: State)
    requires Inv(e, backend, packs, keep, s) && Busy(s, i)
    ensures ok ==> Inv(e, backend, packs, keep, s1) && s1.queue == s.queue && Work(s1.workers) < Work(s.workers)
    ensures ok ==> |s1.workers| == |s.workers|
    ensures Intact(e, backend, packs, keep) ==> ok
  {
    hide Inv;
    hide Work;
    hide ReadBlob;
    hide Intact;
    ok, s1 := true, s;
    var w := s.workers[i];
    match w {
      case Looking(_, _) =>
        LookInv(e, backend, packs, keep, s, i);
        s1 := Looked(s, i);
      case Reading(file, rest) =>
        var plain := ReadBlob(e, file, rest[0]);
        if plain.None? {
          if Intact(e, backend, packs, keep) {
            IntactReads(e, backend, packs, keep, s, i);
          }
          return false, s;
        }
        ReadInv(e, backend, packs, keep, s, i, plain.value);
        s1 := DoneReading(s, i, plain.value);
      case Rechecking(_, _, _) =>
        ClaimInv(e, backend, packs, keep, s, i);
        s1 := Claimed(s, i);
      case Saving(_, _, _) =>
        SaveInv(e, backend, packs, keep, s, i);
        s1 := Saved(s, i);
    }
    WorkUpdate(s.workers, i, s1.workers[i]);
  }

  /**
   Repacks: the workers move in any order, and packs come in any order.  A pack
   that cannot be downloaded, listed or read ends the run without success.
   */
  method Repack(e: Env, backend: map<Id, seq<byte>>, packs: set<Id>, keepBlobs: set<BlobHandle>, numWorkers: nat)
    returns (ok: bool, s: State)
    requires numWorkers > 0
    ensures ok ==> SavedOnce(e, backend, packs, keepBlobs, s.saved) && LeftOver(e, backend, packs, keepBlobs, s.keep)
    ensures ok ==> forall k :: 0 <= k < |s.saved| ==> SaveOk(e, backend, packs, s.saved[k])
    ensures Intact(e, backend, packs, keepBlobs) ==> ok
  {
    hide Inv;
    hide Work;
    hide Listed;
    hide SavedOnce;
    hide LeftOver;
    hide SaveOk;
    hide ReadBlob;
    s := State(packs, seq(numWorkers, _ => Free), keepBlobs, []);
    StartInv(e, backend, packs, keepBlobs, numWorkers);
    while s.queue != {} || exists i :: 0 <= i < |s.workers| && !s.workers[i].Free?
      invariant Inv(e, backend, packs, keepBlobs, s) && |s.workers| == numWorkers && s.queue <= packs
      decreases |s.queue|, Work(s.workers)
    {
      var i :| 0 <= i < |s.workers| && (s.workers[i].Free? ==> s.queue != {});
      var w := s.workers[i];
      if w.Free? {
        var id :| id in s.queue;
        if id !in backend || e.hash(backend[id]) != id {
          return false, s;
        }
        var blobs := Listed(e, backend[id]);
        if blobs.None? {
          return false, s;
        }
        FetchInv(e, backend, packs, keepBlobs, s, i, id);
        s := Fetched(s, i, id, backend[id], blobs.value);
      } else if w.rest == [] {
        RestEmpty(e, backend, packs, keepBlobs, s, i);
        FinishInv(e, backend, packs, keepBlobs, s, i);
        WorkUpdate(s.workers, i, Free);
        s := AtBlob(s, i, Free);
      } else {
        ok, s := Advance(e, backend, packs, keepBlobs, s, i);
        if !ok {
          return;
        }
      }
    }
    EndInv(e, backend, packs, keepBlobs, s);
    ok := true;
  }

  lemma RestEmpty(e: Env, backend: map<Id, seq<byte>>, packs: set<Id>, keep: set<BlobHandle>, s: State, i: nat)
    requires Inv(e, backend, packs, keep, s) && i < |s.workers| && !s.workers[i].Free? && s.workers[i].rest == []
    ensures s.workers[i].Looking?
  {
    hide Placed;
    hide Covered;
    assert WorkerOk(e, backend, packs, s.workers[i]);
  }
}
