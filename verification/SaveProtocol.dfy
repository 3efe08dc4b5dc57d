/**
 Saving blobs from many callers at once.  A caller claims a handle, takes an open
 packer, appends the sealed blob, and either puts the packer back or uploads it
 and records it in the master index; meanwhile indexes are inserted, closed and
 merged.  The steps on the master index are those of its methods.
 */
module SaveProtocol {
  import opened Blobs
  import opened Indexes
  import opened MasterIndexes
  import opened Crypto
  import opened Packs

  const MIN_PACK_SIZE: nat := 4 * 1024 * 1024

  /** A packer: the blobs added so far and the bytes written for them. */
  datatype Pack = Pack(blobs: seq<Blob>, bytes: seq<byte>)

  /** A pack in the backend and in the index. */
  datatype Written = Written(id: Id, blobs: seq<Blob>)

  datatype Caller =
    | Idle
    | Claiming(h: BlobHandle, data: seq<byte>)
    | Packing(h: BlobHandle, data: seq<byte>, pack: Pack)
    | Closing(tpe: BlobType, pack: Pack, flush: bool)
    | Storing(id: Id, blobs: seq<Blob>)

  /**
   The shared state and the callers.  `contents` are the plaintexts behind the
   handles that were saved or are indexed; `first` and `again` count the saves of
   handles that were not known and of handles that were, and `written` lists the
   packs that were recorded.  `unsaved` are the indexes that were closed and not yet
   written, and `indexFiles` is what the index files hold.
   */
  datatype State = State(pending: set<BlobHandle>, view: seq<Snapshot>, data: seq<Pack>, tree: seq<Pack>,
                         backend: map<Id, seq<byte>>, callers: seq<Caller>,
                         contents: map<BlobHandle, seq<byte>>,
                         first: multiset<BlobHandle>, again: multiset<BlobHandle>, written: seq<Written>,
                         unsaved: seq<Snapshot>, indexFiles: seq<Snapshot>)

  // ---------------------------------------------------------------- lookups

  ghost predicate Known(view: seq<Snapshot>, pb: PackedBlob) {
    pb in LookedUp(view, pb.blob.handle)
  }

  ghost predicate Indexed(view: seq<Snapshot>, h: BlobHandle) {
    LookedUp(view, h) != multiset{}
  }

  /** What the master index answers when asked for a handle. */
  ghost predicate Has(s: State, h: BlobHandle) {
    h in s.pending || Indexed(s.view, h)
  }

  lemma IndexedKnown(view: seq<Snapshot>, h: BlobHandle)
    ensures Indexed(view, h) <==> exists pb :: Known(view, pb) && pb.blob.handle == h
  {
    if Indexed(view, h) {
      var pb :| pb in LookedUp(view, h);
      LookedUpMember(view, h, pb);
      assert Known(view, pb);
    }
  }

  /** What is found does not get lost. */
  ghost predicate Grows(view: seq<Snapshot>, view1: seq<Snapshot>) {
    forall pb :: Known(view, pb) ==> Known(view1, pb)
  }

  lemma IndexedKept(view: seq<Snapshot>, view1: seq<Snapshot>, h: BlobHandle)
    requires Grows(view, view1) && Indexed(view, h)
    ensures Indexed(view1, h)
  {
    hide LookedUp;
    hide Indexed;
    hide Known;
    IndexedKnown(view, h);
    IndexedKnown(view1, h);
  }

  lemma {:induction false} OfTypeMember(blobs: seq<Blob>, t: BlobType, id: Id, pb: PackedBlob)
    ensures pb in OfType(blobs, t, id) <==> pb.packId == id && pb.blob in blobs && pb.blob.handle.tpe == t
  {
    if blobs != [] {
      OfTypeMember(blobs[..|blobs| - 1], t, id, pb);
      assert blobs == blobs[..|blobs| - 1] + [blobs[|blobs| - 1]];
    }
  }

  ghost predicate InSome(view: seq<Snapshot>, t: BlobType, pb: PackedBlob) {
    exists i :: 0 <= i < |view| && pb in view[i].Of(t)
  }

  lemma InSomeCons(x: Snapshot, view: seq<Snapshot>, t: BlobType, pb: PackedBlob)
    ensures InSome([x] + view, t, pb) <==> pb in x.Of(t) || InSome(view, t, pb)
  {
    var all := [x] + view;
    if pb in x.Of(t) {
      assert pb in all[0].Of(t);
    }
    if InSome(view, t, pb) {
      var i :| 0 <= i < |view| && pb in view[i].Of(t);
      assert pb in all[i + 1].Of(t);
    }
  }

  lemma {:induction false} StoredInSome(view: seq<Snapshot>, id: Id, blobs: seq<Blob>, t: BlobType, pb: PackedBlob)
    ensures InSome(Stored(view, id, blobs), t, pb) <==> InSome(view, t, pb) || pb in OfType(blobs, t, id)
  {
    hide OfType;
    hide InSome;
    if view == [] {
      InSomeCons(Extended(EMPTY, id, blobs), [], t, pb);
      assert Stored(view, id, blobs) == [Extended(EMPTY, id, blobs)] + [];
      NothingKnown(t, pb);
    } else {
      assert view == [view[0]] + view[1..];
      InSomeCons(view[0], view[1..], t, pb);
      if view[0].final {
        StoredInSome(view[1..], id, blobs, t, pb);
        InSomeCons(view[0], Stored(view[1..], id, blobs), t, pb);
      } else {
        InSomeCons(Extended(view[0], id, blobs), view[1..], t, pb);
      }
    }
  }

  lemma NothingKnown(t: BlobType, pb: PackedBlob)
    ensures !InSome([], t, pb) && pb !in EMPTY.Of(t)
  {
  }

  /** Recording a pack makes its blobs known, and nothing else. */
  lemma RecordKnown(view: seq<Snapshot>, id: Id, blobs: seq<Blob>, pb: PackedBlob)
    ensures Known(Stored(view, id, blobs), pb) <==> Known(view, pb) || (pb.packId == id && pb.blob in blobs)
  {
    hide LookedUp;
    hide Stored;
    hide OfType;
    var h := pb.blob.handle;
    LookedUpMember(view, h, pb);
    LookedUpMember(Stored(view, id, blobs), h, pb);
    StoredInSome(view, id, blobs, h.tpe, pb);
    OfTypeMember(blobs, h.tpe, id, pb);
    assert InSome(view, h.tpe, pb) <==> Known(view, pb);
    assert InSome(Stored(view, id, blobs), h.tpe, pb) <==> Known(Stored(view, id, blobs), pb);
  }

  lemma InsertKnown(view: seq<Snapshot>, x: Snapshot, pb: PackedBlob)
    ensures Known(view + [x], pb) <==> Known(view, pb) || Known([x], pb)
  {
    var h := pb.blob.handle;
    assert (view + [x])[..|view|] == view;
    assert [x][..0] == [];
    assert LookedUp([x], h) == multiset(WithHandle(x.Of(h.tpe), h));
    assert LookedUp(view + [x], h) == LookedUp(view, h) + multiset(WithHandle(x.Of(h.tpe), h));
  }

  function Closed(view: seq<Snapshot>, full: nat -> bool): seq<Snapshot> {
    seq(|view|, j requires 0 <= j < |view| => view[j].(final := view[j].final || full(j)))
  }

  /** The indexes that closing the full ones closes, in order. */
  function NewlyClosed(view: seq<Snapshot>, full: nat -> bool): seq<Snapshot> {
    if view == [] then []
    else
      var last := |view| - 1;
      NewlyClosed(view[..last], full) + if !view[last].final && full(last) then [view[last].(final := true)] else []
  }

  /** Closing indexes changes nothing a lookup can find. */
  lemma FinalizeKnown(view: seq<Snapshot>, full: nat -> bool, pb: PackedBlob)
    ensures Known(Closed(view, full), pb) <==> Known(view, pb)
  {
    hide LookedUp;
    var h := pb.blob.handle;
    LookedUpMember(view, h, pb);
    LookedUpMember(Closed(view, full), h, pb);
    assert forall j :: 0 <= j < |view| ==> Closed(view, full)[j].Of(h.tpe) == view[j].Of(h.tpe);
  }

  // ---------------------------------------------------------------- contents

  /** The bytes hold, in the blob's range, the plaintext behind its handle. */
  ghost predicate Holds(e: Env, bytes: seq<byte>, contents: map<BlobHandle, seq<byte>>, b: Blob) {
    && b.offset + b.length <= |bytes| && b.length >= NONCE_SIZE
    && b.handle in contents && e.hash(contents[b.handle]) == b.handle.id
    && e.key.Opened(bytes[b.offset..b.offset + b.length]) == Some(contents[b.handle])
  }

  ghost predicate Readable(e: Env, backend: map<Id, seq<byte>>, contents: map<BlobHandle, seq<byte>>, pb: PackedBlob) {
    && Describable(pb) && pb.blob.length < UINT32_RANGE
    && pb.packId in backend && Holds(e, backend[pb.packId], contents, pb.blob)
  }

  /** More entries, none changed. */
  ghost predicate Extends<K(!new), V>(m: map<K, V>, m1: map<K, V>) {
    forall k :: k in m ==> k in m1 && m1[k] == m[k]
  }

  lemma HoldsExtends(e: Env, bytes: seq<byte>, more: seq<byte>, contents: map<BlobHandle, seq<byte>>,
                     contents1: map<BlobHandle, seq<byte>>, b: Blob)
    requires Holds(e, bytes, contents, b) && Extends(contents, contents1) && bytes <= more
    ensures Holds(e, more, contents1, b)
  {
    assert more[b.offset..b.offset + b.length] == bytes[b.offset..b.offset + b.length];
  }

  // ---------------------------------------------------------------- steps

  /** The identifier a blob is saved under. */
  function SaveId(e: Env, id: Id, bytes: seq<byte>): Id {
    if id == NullId() then e.hash(bytes) else id
  }

  /** The identifier is null or right, and no other plaintext with the same handle comes up. */
  ghost predicate Saveable(e: Env, contents: map<BlobHandle, seq<byte>>, t: BlobType, id: Id, bytes: seq<byte>) {
    && Storable(t) && (id == NullId() || id == e.hash(bytes)) && |bytes| + EXTENSION < UINT32_RANGE
    && var h := BlobHandle(SaveId(e, id, bytes), t); h in contents ==> contents[h] == bytes
  }

  /** The open packers of one type. */
  function Open(s: State, t: BlobType): seq<Pack> {
    if t == TreeBlob then s.tree else s.data
  }

  function WithOpen(s: State, t: BlobType, packs: seq<Pack>): State {
    if t == TreeBlob then s.(tree := packs) else s.(data := packs)
  }

  /** What is left of the open packers after taking the first: the last one moves to the front. */
  function Taken<T>(packs: seq<T>): seq<T>
    requires packs != []
  {
    if |packs| == 1 then [] else [packs[|packs| - 1]] + packs[1..|packs| - 1]
  }

  function Appended(e: Env, p: Pack, h: BlobHandle, data: seq<byte>, nonce: seq<byte>): Pack {
    var ciphertext := e.key.Sealed(nonce, data);
    Pack(p.blobs + [Blob(h, |ciphertext|, |p.bytes|)], p.bytes + ciphertext)
  }

  ghost predicate AllStorable(blobs: seq<Blob>) {
    forall k :: 0 <= k < |blobs| ==> Storable(blobs[k].handle.tpe)
  }

  /** The caller moves to another place. */
  function Moved(s: State, c: nat, to: Caller): State
    requires c < |s.callers|
  {
    s.(callers := s.callers[c := to])
  }

  /** SaveBlob: claims the handle, or goes on without a claim, or is done. */
  ghost function Begun(s: State, c: nat, h: BlobHandle, bytes: seq<byte>, storeDuplicate: bool): State
    requires c < |s.callers|
  {
    var told := s.(contents := s.contents[h := bytes]);
    if !Has(s, h) then
      Moved(told, c, Claiming(h, bytes)).(pending := s.pending + {h}, first := s.first + multiset{h})
    else if storeDuplicate then
      Moved(told, c, Claiming(h, bytes)).(again := s.again + multiset{h})
    else told
  }

  /** findPacker: takes an open packer, or starts a new one. */
  function Found(s: State, c: nat): State
    requires c < |s.callers| && s.callers[c].Claiming?
  {
    var p := s.callers[c];
    var open := Open(s, p.h.tpe);
    if open != [] then WithOpen(Moved(s, c, Packing(p.h, p.data, open[0])), p.h.tpe, Taken(open))
    else Moved(s, c, Packing(p.h, p.data, Pack([], [])))
  }

  /** Seals the blob and adds it to the packer. */
  function Added(e: Env, s: State, c: nat, nonce: seq<byte>): State
    requires c < |s.callers| && s.callers[c].Packing?
  {
    var p := s.callers[c];
    Moved(s, c, Closing(p.h.tpe, Appended(e, p.pack, p.h, p.data, nonce), false))
  }

  /** insertPacker. */
  function PutBack(s: State, c: nat): State
    requires c < |s.callers| && s.callers[c].Closing?
  {
    var p := s.callers[c];
    WithOpen(Moved(s, c, Idle), p.tpe, Open(s, p.tpe) + [p.pack])
  }

  /** FlushPacks: the next open packer is to be uploaded, full or not. */
  function Flushed(s: State, c: nat, t: BlobType): State
    requires c < |s.callers| && Open(s, t) != []
  {
    WithOpen(Moved(s, c, Closing(t, Open(s, t)[0], true)), t, Open(s, t)[1..])
  }

  ghost function File(e: Env, p: Pack, nonce: seq<byte>): seq<byte>
    requires AllStorable(p.blobs)
  {
    Packed(e.key, nonce, p.bytes, p.blobs)
  }

  /** savePacker, up to the write to the backend. */
  ghost function Uploaded(e: Env, s: State, c: nat, nonce: seq<byte>): State
    requires c < |s.callers| && s.callers[c].Closing? && AllStorable(s.callers[c].pack.blobs)
  {
    var p := s.callers[c].pack;
    var file := File(e, p, nonce);
    Moved(s, c, Storing(e.hash(file), p.blobs)).(backend := s.backend[e.hash(file) := file])
  }

  /** The pack enters the index, and its blobs are no longer pending. */
  ghost function Recorded(s: State, c: nat): State
    requires c < |s.callers| && s.callers[c].Storing?
  {
    var p := s.callers[c];
    Moved(s, c, Idle).(pending := s.pending - HandlesOf(p.blobs), view := Stored(s.view, p.id, p.blobs),
                       written := s.written + [Written(p.id, p.blobs)])
  }

  datatype Action =
    | Begin(c: nat, t: BlobType, id: Id, bytes: seq<byte>, storeDuplicate: bool)
    | Find(c: nat)
    | Add(c: nat, nonce: seq<byte>)
    | Put(c: nat)
    | Flush(c: nat, t: BlobType)
    | Upload(c: nat, nonce: seq<byte>)
    | Record(c: nat)
    | Insert(index: Snapshot)
    | Finalize(full: nat -> bool)
    | SaveIndex(k: nat)
    | Merge(merged: seq<Snapshot>)

  ghost predicate CanUpload(e: Env, s: State, c: nat, nonce: seq<byte>) {
    && c < |s.callers| && s.callers[c].Closing? && |nonce| == NONCE_SIZE
    && var p := s.callers[c];
       && (p.flush || |p.pack.bytes| >= MIN_PACK_SIZE) && AllStorable(p.pack.blobs)
       && e.hash(File(e, p.pack, nonce)) != NullId()
       && (e.hash(File(e, p.pack, nonce)) in s.backend ==>
             s.backend[e.hash(File(e, p.pack, nonce))] == File(e, p.pack, nonce))
  }

  ghost predicate Steps(e: Env, s: State, a: Action, s1: State) {
    match a
    case Begin(c, t, id, bytes, storeDuplicate) =>
      && c < |s.callers| && s.callers[c].Idle? && Saveable(e, s.contents, t, id, bytes)
      && s1 == Begun(s, c, BlobHandle(SaveId(e, id, bytes), t), bytes, storeDuplicate)
    case Find(c) =>
      c < |s.callers| && s.callers[c].Claiming? && s1 == Found(s, c)
    case Add(c, nonce) =>
      c < |s.callers| && s.callers[c].Packing? && |nonce| == NONCE_SIZE && s1 == Added(e, s, c, nonce)
    case Put(c) =>
      && c < |s.callers| && s.callers[c].Closing? && !s.callers[c].flush && |s.callers[c].pack.bytes| < MIN_PACK_SIZE
      && s1 == PutBack(s, c)
    case Flush(c, t) =>
      c < |s.callers| && s.callers[c].Idle? && Storable(t) && Open(s, t) != [] && s1 == Flushed(s, c, t)
    case Upload(c, nonce) =>
      CanUpload(e, s, c, nonce) && s1 == Uploaded(e, s, c, nonce)
    case Record(c) =>
      c < |s.callers| && s.callers[c].Storing? && s1 == Recorded(s, c)
    case Insert(x) =>
      && (forall pb :: Known([x], pb) ==> Readable(e, s.backend, s.contents, pb))
      && s1 == s.(view := s.view + [x], indexFiles := if x.final then s.indexFiles + [x] else s.indexFiles)
    case Finalize(full) =>
      s1 == s.(view := Closed(s.view, full), unsaved := s.unsaved + NewlyClosed(s.view, full))
    case SaveIndex(k) =>
      k < |s.unsaved| &&
      s1 == s.(unsaved := s.unsaved[..k] + s.unsaved[k + 1..], indexFiles := s.indexFiles + [s.unsaved[k]])
    case Merge(merged) =>
      MergedView(s.view, merged) && s1 == s.(view := merged)
  }

  /** Only saves touch the contents and the counts of saves, and only index steps the indexes. */
  lemma StepFrame(e: Env, s: State, a: Action, s1: State)
    requires Steps(e, s, a, s1)
    ensures !a.Begin? ==>
              s1.contents == s.contents && s1.first == s.first && s1.again == s.again && s1.pending <= s.pending
    ensures !a.Record? && !a.Insert? && !a.Finalize? && !a.Merge? ==> s1.view == s.view
    ensures !a.Insert? && !a.Finalize? && !a.SaveIndex? ==> s1.unsaved == s.unsaved && s1.indexFiles == s.indexFiles
  {
    hide Stored;
    hide Taken;
    hide File;
    hide CanUpload;
    hide NewlyClosed;
    hide MergedView;
    hide Known;
    hide Saveable;
    hide Has;
  }

  // ---------------------------------------------------------------- knowing stays

  /** No step makes the index forget a location. */
  lemma StepGrows(e: Env, s: State, a: Action, s1: State)
    requires Steps(e, s, a, s1)
    ensures Grows(s.view, s1.view)
  {
    hide Known;
    hide Stored;
    hide MergedView;
    match a
    case Record(c) =>
      forall pb | Known(s.view, pb) ensures Known(s1.view, pb) {
        RecordKnown(s.view, s.callers[c].id, s.callers[c].blobs, pb);
      }
    case Insert(x) =>
      forall pb | Known(s.view, pb) ensures Known(s1.view, pb) {
        InsertKnown(s.view, x, pb);
      }
    case Finalize(full) =>
      forall pb | Known(s.view, pb) ensures Known(s1.view, pb) {
        FinalizeKnown(s.view, full, pb);
      }
    case Merge(merged) =>
      forall pb | Known(s.view, pb) ensures Known(s1.view, pb) {
        MergeKnown(s.view, merged, pb);
      }
    case _ =>
  }

  lemma MergeKnown(view: seq<Snapshot>, merged: seq<Snapshot>, pb: PackedBlob)
    requires MergedView(view, merged)
    ensures Known(merged, pb) <==> Known(view, pb)
  {
    MergeKeepsLookups(view, merged, pb.blob.handle, pb);
  }

  /** Whatever the callers do, a handle that is known stays known. */
  lemma StepHas(e: Env, s: State, a: Action, s1: State, h: BlobHandle)
    requires Steps(e, s, a, s1) && Has(s, h)
    ensures Has(s1, h)
  {
    hide Indexed;
    hide Stored;
    StepGrows(e, s, a, s1);
    if Indexed(s.view, h) {
      IndexedKept(s.view, s1.view, h);
    } else if a.Record? && h !in s1.pending {
      RecordIndexed(s.view, s.callers[a.c].id, s.callers[a.c].blobs, h);
    }
  }

  lemma RecordIndexed(view: seq<Snapshot>, id: Id, blobs: seq<Blob>, h: BlobHandle)
    requires h in HandlesOf(blobs)
    ensures Indexed(Stored(view, id, blobs), h)
  {
    var b :| b in blobs && b.handle == h;
    RecordKnown(view, id, blobs, PackedBlob(b, id));
    IndexedKnown(Stored(view, id, blobs), h);
  }

  // ---------------------------------------------------------------- every blob is in one place

  ghost function BlobCount(blobs: seq<Blob>, h: BlobHandle): nat {
    if blobs == [] then 0 else BlobCount(blobs[..|blobs| - 1], h) + One(blobs[|blobs| - 1].handle == h)
  }

  ghost function OpenCount(packs: seq<Pack>, h: BlobHandle): nat {
    if packs == [] then 0 else OpenCount(packs[..|packs| - 1], h) + BlobCount(packs[|packs| - 1].blobs, h)
  }

  ghost function CallerCount(c: Caller, h: BlobHandle): nat {
    match c
    case Idle => 0
    case Claiming(claim, _) => One(claim == h)
    case Packing(claim, _, pack) => BlobCount(pack.blobs, h) + One(claim == h)
    case Closing(_, pack, _) => BlobCount(pack.blobs, h)
    case Storing(_, blobs) => BlobCount(blobs, h)
  }

  ghost function CallersCount(callers: seq<Caller>, h: BlobHandle): nat {
    if callers == [] then 0
    else CallersCount(callers[..|callers| - 1], h) + CallerCount(callers[|callers| - 1], h)
  }

  ghost function WrittenCount(written: seq<Written>, h: BlobHandle): nat {
    if written == [] then 0
    else WrittenCount(written[..|written| - 1], h) + BlobCount(written[|written| - 1].blobs, h)
  }

  /**
   Every save that was not spared is in exactly one place: on its way into a
   packer, in an open packer, in a packer that a caller is closing or storing, or
   in a recorded pack.
   */
  ghost predicate Conserved(s: State, h: BlobHandle) {
    s.first[h] + s.again[h] ==
    OpenCount(s.data, h) + OpenCount(s.tree, h) + CallersCount(s.callers, h) + WrittenCount(s.written, h)
  }

  lemma {:induction false} OpenCountConcat(a: seq<Pack>, b: seq<Pack>, h: BlobHandle)
    ensures OpenCount(a + b, h) == OpenCount(a, h) + OpenCount(b, h)
  {
    if b == [] {
      assert a + b == a;
    } else {
      OpenCountConcat(a, b[..|b| - 1], h);
      assert (a + b)[..|a + b| - 1] == a + b[..|b| - 1];
    }
  }

  lemma OpenCountSingle(p: Pack, h: BlobHandle)
    ensures OpenCount([p], h) == BlobCount(p.blobs, h) && OpenCount([], h) == 0 && BlobCount([], h) == 0
  {
    assert [p][..0] == [];
  }

  lemma OpenCountFirst(packs: seq<Pack>, h: BlobHandle)
    requires packs != []
    ensures OpenCount(packs, h) == BlobCount(packs[0].blobs, h) + OpenCount(packs[1..], h)
    ensures OpenCount(packs, h) == BlobCount(packs[0].blobs, h) + OpenCount(Taken(packs), h)
  {
    hide OpenCount;
    hide BlobCount;
    assert packs == [packs[0]] + packs[1..];
    OpenCountConcat([packs[0]], packs[1..], h);
    OpenCountSingle(packs[0], h);
    if |packs| > 1 {
      var last, middle := packs[|packs| - 1], packs[1..|packs| - 1];
      assert packs[1..] == middle + [last];
      OpenCountConcat(middle, [last], h);
      OpenCountConcat([last], middle, h);
    }
  }

  lemma {:induction false} CallersCountUpdate(callers: seq<Caller>, c: nat, to: Caller, h: BlobHandle)
    requires c < |callers|
    ensures CallersCount(callers[c := to], h) + CallerCount(callers[c], h) ==
            CallersCount(callers, h) + CallerCount(to, h)
  {
    hide CallerCount;
    var last := |callers| - 1;
    if c == last {
      assert callers[c := to][..last] == callers[..last];
    } else {
      CallersCountUpdate(callers[..last], c, to, h);
      assert callers[c := to][..last] == callers[..last][c := to];
    }
  }

  lemma BlobCountPush(blobs: seq<Blob>, b: Blob, h: BlobHandle)
    ensures BlobCount(blobs + [b], h) == BlobCount(blobs, h) + One(b.handle == h)
  {
    assert (blobs + [b])[..|blobs|] == blobs;
  }

  lemma WrittenCountPush(written: seq<Written>, w: Written, h: BlobHandle)
    ensures WrittenCount(written + [w], h) == WrittenCount(written, h) + BlobCount(w.blobs, h)
  {
    assert (written + [w])[..|written|] == written;
  }

  lemma BeginConserves(s: State, c: nat, claim: BlobHandle, bytes: seq<byte>, storeDuplicate: bool, h: BlobHandle)
    requires c < |s.callers| && s.callers[c].Idle? && Conserved(s, h)
    ensures Conserved(Begun(s, c, claim, bytes, storeDuplicate), h)
  {
    hide OpenCount;
    hide BlobCount;
    hide WrittenCount;
    hide CallersCount;
    hide Has;
    var s1 := Begun(s, c, claim, bytes, storeDuplicate);
    CallersCountUpdate(s.callers, c, s1.callers[c], h);
    assert s.callers[c := s1.callers[c]] == s1.callers;
  }

  lemma FindConserves(s: State, c: nat, h: BlobHandle)
    requires c < |s.callers| && s.callers[c].Claiming? && Conserved(s, h)
    ensures Conserved(Found(s, c), h)
  {
    hide OpenCount;
    hide BlobCount;
    hide WrittenCount;
    hide CallersCount;
    hide Taken;
    CallersCountUpdate(s.callers, c, Found(s, c).callers[c], h);
    OpenCountSingle(Pack([], []), h);
    var open := Open(s, s.callers[c].h.tpe);
    if open != [] {
      OpenCountFirst(open, h);
    }
  }

  lemma AddConserves(e: Env, s: State, c: nat, nonce: seq<byte>, h: BlobHandle)
    requires c < |s.callers| && s.callers[c].Packing? && Conserved(s, h)
    ensures Conserved(Added(e, s, c, nonce), h)
  {
    hide OpenCount;
    hide BlobCount;
    hide WrittenCount;
    hide CallersCount;
    var p := s.callers[c];
    CallersCountUpdate(s.callers, c, Added(e, s, c, nonce).callers[c], h);
    BlobCountPush(p.pack.blobs, Blob(p.h, |e.key.Sealed(nonce, p.data)|, |p.pack.bytes|), h);
  }

  lemma PutConserves(s: State, c: nat, h: BlobHandle)
    requires c < |s.callers| && s.callers[c].Closing? && Conserved(s, h)
    ensures Conserved(PutBack(s, c), h)
  {
    hide OpenCount;
    hide BlobCount;
    hide WrittenCount;
    hide CallersCount;
    CallersCountUpdate(s.callers, c, Idle, h);
    OpenCountConcat(Open(s, s.callers[c].tpe), [s.callers[c].pack], h);
    OpenCountSingle(s.callers[c].pack, h);
  }

  lemma FlushConserves(s: State, c: nat, t: BlobType, h: BlobHandle)
    requires c < |s.callers| && s.callers[c].Idle? && Open(s, t) != [] && Conserved(s, h)
    ensures Conserved(Flushed(s, c, t), h)
  {
    hide OpenCount;
    hide BlobCount;
    hide WrittenCount;
    hide CallersCount;
    CallersCountUpdate(s.callers, c, Flushed(s, c, t).callers[c], h);
    OpenCountFirst(Open(s, t), h);
  }

  lemma UploadConserves(e: Env, s: State, c: nat, nonce: seq<byte>, h: BlobHandle)
    requires CanUpload(e, s, c, nonce) && Conserved(s, h)
    ensures Conserved(Uploaded(e, s, c, nonce), h)
  {
    hide OpenCount;
    hide BlobCount;
    hide WrittenCount;
    hide CallersCount;
    hide File;
    CallersCountUpdate(s.callers, c, Uploaded(e, s, c, nonce).callers[c], h);
  }

  lemma RecordConserves(s: State, c: nat, h: BlobHandle)
    requires c < |s.callers| && s.callers[c].Storing? && Conserved(s, h)
    ensures Conserved(Recorded(s, c), h)
  {
    hide OpenCount;
    hide BlobCount;
    hide WrittenCount;
    hide CallersCount;
    hide Stored;
    CallersCountUpdate(s.callers, c, Idle, h);
    WrittenCountPush(s.written, Written(s.callers[c].id, s.callers[c].blobs), h);
  }

  lemma SameConserved(s: State, s1: State, h: BlobHandle)
    requires Conserved(s, h)
    requires s1 == s.(view := s1.view, unsaved := s1.unsaved, indexFiles := s1.indexFiles)
    ensures Conserved(s1, h)
  {
  }

  lemma StepConserves(e: Env, s: State, a: Action, s1: State, h: BlobHandle)
    requires Steps(e, s, a, s1) && Conserved(s, h)
    ensures Conserved(s1, h)
  {
    hide Conserved;
    hide Begun;
    hide Found;
    hide Added;
    hide PutBack;
    hide Flushed;
    hide Uploaded;
    hide CanUpload;
    hide Recorded;
    hide MergedView;
    hide Known;
    match a
    case Begin(c, t, id, bytes, storeDuplicate) =>
      BeginConserves(s, c, BlobHandle(SaveId(e, id, bytes), t), bytes, storeDuplicate, h);
    case Find(c) => FindConserves(s, c, h);
    case Add(c, nonce) => AddConserves(e, s, c, nonce, h);
    case Put(c) => PutConserves(s, c, h);
    case Flush(c, t) => FlushConserves(s, c, t, h);
    case Upload(c, nonce) => UploadConserves(e, s, c, nonce, h);
    case Record(c) => RecordConserves(s, c, h);
    case _ => SameConserved(s, s1, h);
  }

  // ---------------------------------------------------------------- every blob can be read

  /** The blobs are small enough for the index and lie where a reader expects them. */
  ghost predicate InBounds(t: BlobType, blobs: seq<Blob>) {
    forall b :: b in blobs ==> b.handle.tpe == t && b.offset < MIN_PACK_SIZE && b.length < UINT32_RANGE
  }

  ghost predicate AllHeld(e: Env, bytes: seq<byte>, contents: map<BlobHandle, seq<byte>>, blobs: seq<Blob>) {
    forall b :: b in blobs ==> Holds(e, bytes, contents, b)
  }

  /** A packer of one type: its blobs cover its bytes, and each of them can be read. */
  ghost predicate PackOk(e: Env, contents: map<BlobHandle, seq<byte>>, t: BlobType, p: Pack) {
    && |p.bytes| == TotalLength(p.blobs) && Consecutive(p.blobs, 0)
    && InBounds(t, p.blobs) && AllHeld(e, p.bytes, contents, p.blobs)
  }

  ghost predicate OpenOk(e: Env, contents: map<BlobHandle, seq<byte>>, t: BlobType, packs: seq<Pack>) {
    forall i :: 0 <= i < |packs| ==> PackOk(e, contents, t, packs[i]) && |packs[i].bytes| < MIN_PACK_SIZE
  }

  ghost predicate ClaimOk(e: Env, contents: map<BlobHandle, seq<byte>>, h: BlobHandle, data: seq<byte>) {
    Storable(h.tpe) && h in contents && contents[h] == data && e.hash(data) == h.id && |data| + EXTENSION < UINT32_RANGE
  }

  ghost predicate CallerOk(e: Env, backend: map<Id, seq<byte>>, contents: map<BlobHandle, seq<byte>>, c: Caller) {
    match c
    case Idle => true
    case Claiming(h, data) => ClaimOk(e, contents, h, data)
    case Packing(h, data, pack) =>
      ClaimOk(e, contents, h, data) && PackOk(e, contents, h.tpe, pack) && |pack.bytes| < MIN_PACK_SIZE
    case Closing(t, pack, _) => Storable(t) && PackOk(e, contents, t, pack)
    case Storing(id, blobs) =>
      && id != NullId() && id in backend && AllHeld(e, backend[id], contents, blobs)
      && exists t :: Storable(t) && InBounds(t, blobs)
  }

  ghost predicate CallersOk(e: Env, backend: map<Id, seq<byte>>, contents: map<BlobHandle, seq<byte>>,
                            callers: seq<Caller>)
  {
    forall c :: 0 <= c < |callers| ==> CallerOk(e, backend, contents, callers[c])
  }

  ghost predicate ViewOk(e: Env, backend: map<Id, seq<byte>>, contents: map<BlobHandle, seq<byte>>,
                         view: seq<Snapshot>)
  {
    forall pb :: Known(view, pb) ==> Readable(e, backend, contents, pb)
  }

  /** Every recorded blob is known, and starts within the first bytes of its pack. */
  ghost predicate WrittenOk(view: seq<Snapshot>, written: seq<Written>) {
    forall i :: 0 <= i < |written| ==> PackKnown(view, written[i])
  }

  ghost predicate PackKnown(view: seq<Snapshot>, w: Written) {
    forall b :: b in w.blobs ==> Known(view, PackedBlob(b, w.id)) && b.offset < MIN_PACK_SIZE
  }

  ghost predicate Healthy(e: Env, s: State) {
    && OpenOk(e, s.contents, DataBlob, s.data) && OpenOk(e, s.contents, TreeBlob, s.tree)
    && CallersOk(e, s.backend, s.contents, s.callers)
    && ViewOk(e, s.backend, s.contents, s.view) && WrittenOk(s.view, s.written)
  }

  lemma AllHeldExtends(e: Env, bytes: seq<byte>, more: seq<byte>, contents: map<BlobHandle, seq<byte>>,
                       contents1: map<BlobHandle, seq<byte>>, blobs: seq<Blob>)
    requires AllHeld(e, bytes, contents, blobs) && Extends(contents, contents1) && bytes <= more
    ensures AllHeld(e, more, contents1, blobs)
  {
    hide Holds;
    forall b | b in blobs ensures Holds(e, more, contents1, b) {
      HoldsExtends(e, bytes, more, contents, contents1, b);
    }
  }

  lemma PackExtends(e: Env, contents: map<BlobHandle, seq<byte>>, contents1: map<BlobHandle, seq<byte>>, t: BlobType,
                    p: Pack)
    requires PackOk(e, contents, t, p) && Extends(contents, contents1)
    ensures PackOk(e, contents1, t, p)
  {
    hide AllHeld;
    AllHeldExtends(e, p.bytes, p.bytes, contents, contents1, p.blobs);
  }

  lemma CallerExtends(e: Env, backend: map<Id, seq<byte>>, backend1: map<Id, seq<byte>>,
                      contents: map<BlobHandle, seq<byte>>, contents1: map<BlobHandle, seq<byte>>, c: Caller)
    requires CallerOk(e, backend, contents, c) && Extends(backend, backend1) && Extends(contents, contents1)
    ensures CallerOk(e, backend1, contents1, c)
  {
    hide PackOk;
    hide AllHeld;
    hide InBounds;
    if c.Packing? {
      PackExtends(e, contents, contents1, c.h.tpe, c.pack);
    } else if c.Closing? {
      PackExtends(e, contents, contents1, c.tpe, c.pack);
    } else if c.Storing? {
      AllHeldExtends(e, backend[c.id], backend[c.id], contents, contents1, c.blobs);
    }
  }

  lemma OpenExtends(e: Env, contents: map<BlobHandle, seq<byte>>, contents1: map<BlobHandle, seq<byte>>, t: BlobType,
                    packs: seq<Pack>)
    requires OpenOk(e, contents, t, packs) && Extends(contents, contents1)
    ensures OpenOk(e, contents1, t, packs)
  {
    hide PackOk;
    forall i | 0 <= i < |packs| ensures PackOk(e, contents1, t, packs[i]) {
      PackExtends(e, contents, contents1, t, packs[i]);
    }
  }

  /** New plaintexts and new files do no harm. */
  lemma HealthyExtends(e: Env, s: State, backend1: map<Id, seq<byte>>, contents1: map<BlobHandle, seq<byte>>)
    requires Healthy(e, s) && Extends(s.backend, backend1) && Extends(s.contents, contents1)
    ensures Healthy(e, s.(backend := backend1, contents := contents1))
  {
    hide OpenOk;
    hide CallerOk;
    hide Known;
    OpenExtends(e, s.contents, contents1, DataBlob, s.data);
    OpenExtends(e, s.contents, contents1, TreeBlob, s.tree);
    forall c | 0 <= c < |s.callers| ensures CallerOk(e, backend1, contents1, s.callers[c]) {
      CallerExtends(e, s.backend, backend1, s.contents, contents1, s.callers[c]);
    }
    forall pb | Known(s.view, pb) ensures Readable(e, backend1, contents1, pb) {
      HoldsExtends(e, s.backend[pb.packId], s.backend[pb.packId], s.contents, contents1, pb.blob);
    }
  }

  lemma BeginHealthy(e: Env, s: State, c: nat, t: BlobType, id: Id, bytes: seq<byte>, storeDuplicate: bool)
    requires c < |s.callers| && Healthy(e, s) && Saveable(e, s.contents, t, id, bytes)
    ensures Healthy(e, Begun(s, c, BlobHandle(SaveId(e, id, bytes), t), bytes, storeDuplicate))
  {
    hide OpenOk;
    hide ViewOk;
    hide WrittenOk;
    hide Has;
    hide PackOk;
    hide AllHeld;
    hide InBounds;
    HealthyExtends(e, s, s.backend, s.contents[BlobHandle(SaveId(e, id, bytes), t) := bytes]);
  }

  lemma FindHealthy(e: Env, s: State, c: nat)
    requires c < |s.callers| && s.callers[c].Claiming? && Healthy(e, s)
    ensures Healthy(e, Found(s, c))
  {
    hide ViewOk;
    hide WrittenOk;
    hide PackOk;
    hide AllHeld;
    hide InBounds;
    var h := s.callers[c].h;
    NewPackOk(e, s.contents, h.tpe);
    assert CallerOk(e, s.backend, s.contents, s.callers[c]);
  }

  lemma NewPackOk(e: Env, contents: map<BlobHandle, seq<byte>>, t: BlobType)
    ensures PackOk(e, contents, t, Pack([], []))
  {
  }

  /** Sealing and appending a blob keeps the earlier ones and makes the new one readable. */
  lemma AppendedOk(e: Env, contents: map<BlobHandle, seq<byte>>, p: Pack, h: BlobHandle, data: seq<byte>,
                   nonce: seq<byte>)
    requires e.key.Lawful() && |nonce| == NONCE_SIZE && |p.bytes| < MIN_PACK_SIZE
    requires ClaimOk(e, contents, h, data) && PackOk(e, contents, h.tpe, p)
    ensures PackOk(e, contents, h.tpe, Appended(e, p, h, data, nonce))
  {
    hide Holds;
    hide TotalLength;
    hide Consecutive;
    hide Key.Sealed;
    hide Key.Lawful;
    var ciphertext, p1 := e.key.Sealed(nonce, data), Appended(e, p, h, data, nonce);
    var b := Blob(h, |ciphertext|, |p.bytes|);
    e.key.OpenedSealed(nonce, data);
    ConsecutivePush(p.blobs, b);
    AllHeldExtends(e, p.bytes, p1.bytes, contents, contents, p.blobs);
    assert Holds(e, p1.bytes, contents, b) by {
      JustAppended(e, p.bytes, ciphertext, contents, b);
    }
  }

  lemma JustAppended(e: Env, bytes: seq<byte>, ciphertext: seq<byte>, contents: map<BlobHandle, seq<byte>>, b: Blob)
    requires b.offset == |bytes| && b.length == |ciphertext| >= NONCE_SIZE
    requires b.handle in contents && e.hash(contents[b.handle]) == b.handle.id
    requires e.key.Opened(ciphertext) == Some(contents[b.handle])
    ensures Holds(e, bytes + ciphertext, contents, b)
  {
    assert (bytes + ciphertext)[b.offset..b.offset + b.length] == ciphertext;
  }

  lemma AddHealthy(e: Env, s: State, c: nat, nonce: seq<byte>)
    requires e.key.Lawful() && |nonce| == NONCE_SIZE
    requires c < |s.callers| && s.callers[c].Packing? && Healthy(e, s)
    ensures Healthy(e, Added(e, s, c, nonce))
  {
    hide OpenOk;
    hide ViewOk;
    hide WrittenOk;
    hide PackOk;
    hide AllHeld;
    hide InBounds;
    hide Appended;
    var p := s.callers[c];
    assert CallerOk(e, s.backend, s.contents, p);
    AppendedOk(e, s.contents, p.pack, p.h, p.data, nonce);
  }

  lemma PutHealthy(e: Env, s: State, c: nat)
    requires c < |s.callers| && s.callers[c].Closing? && |s.callers[c].pack.bytes| < MIN_PACK_SIZE && Healthy(e, s)
    ensures Healthy(e, PutBack(s, c))
  {
    hide ViewOk;
    hide WrittenOk;
    hide PackOk;
    hide AllHeld;
    hide InBounds;
    assert CallerOk(e, s.backend, s.contents, s.callers[c]);
  }

  lemma FlushHealthy(e: Env, s: State, c: nat, t: BlobType)
    requires c < |s.callers| && Storable(t) && Open(s, t) != [] && Healthy(e, s)
    ensures Healthy(e, Flushed(s, c, t))
  {
    hide ViewOk;
    hide WrittenOk;
    hide PackOk;
    hide AllHeld;
    hide InBounds;
  }

  lemma UploadHealthy(e: Env, s: State, c: nat, nonce: seq<byte>)
    requires CanUpload(e, s, c, nonce) && Healthy(e, s)
    ensures Healthy(e, Uploaded(e, s, c, nonce))
  {
    hide OpenOk;
    hide ViewOk;
    hide WrittenOk;
    hide AllHeld;
    hide InBounds;
    hide Packed;
    hide TotalLength;
    hide Consecutive;
    var p := s.callers[c].pack;
    var file := File(e, p, nonce);
    assert CallerOk(e, s.backend, s.contents, s.callers[c]);
    HealthyExtends(e, s, s.backend[e.hash(file) := file], s.contents);
    assert p.bytes <= file by {
      FileStarts(e, p, nonce);
    }
    AllHeldExtends(e, p.bytes, file, s.contents, s.contents, p.blobs);
    assert CallerOk(e, s.backend[e.hash(file) := file], s.contents, Storing(e.hash(file), p.blobs));
  }

  lemma FileStarts(e: Env, p: Pack, nonce: seq<byte>)
    requires AllStorable(p.blobs)
    ensures p.bytes <= File(e, p, nonce)
  {
    hide EncodeHeader;
    hide LittleEndian;
  }

  lemma RecordHealthy(e: Env, s: State, c: nat)
    requires c < |s.callers| && s.callers[c].Storing? && Healthy(e, s)
    ensures Healthy(e, Recorded(s, c))
  {
    hide OpenOk;
    hide Holds;
    hide Known;
    hide Stored;
    hide PackOk;
    var p, s1 := s.callers[c], Recorded(s, c);
    assert CallerOk(e, s.backend, s.contents, p);
    forall pb ensures Known(s1.view, pb) <==> Known(s.view, pb) || (pb.packId == p.id && pb.blob in p.blobs) {
      RecordKnown(s.view, p.id, p.blobs, pb);
    }
  }

  /** Inserting, closing and merging indexes reveals nothing unreadable. */
  lemma ViewHealthy(e: Env, s: State, s1: State)
    requires Healthy(e, s) && Grows(s.view, s1.view) && ViewOk(e, s.backend, s.contents, s1.view)
    requires s1 == s.(view := s1.view, unsaved := s1.unsaved, indexFiles := s1.indexFiles)
    ensures Healthy(e, s1)
  {
    hide OpenOk;
    hide CallersOk;
    hide ViewOk;
    hide Known;
  }

  lemma StepHealthy(e: Env, s: State, a: Action, s1: State)
    requires e.key.Lawful() && Steps(e, s, a, s1) && Healthy(e, s)
    ensures Healthy(e, s1)
  {
    hide Healthy;
    hide Begun;
    hide Found;
    hide Added;
    hide PutBack;
    hide Flushed;
    hide Uploaded;
    hide CanUpload;
    hide Recorded;
    hide MergedView;
    hide Known;
    match a
    case Begin(c, t, id, bytes, storeDuplicate) => BeginHealthy(e, s, c, t, id, bytes, storeDuplicate);
    case Find(c) => FindHealthy(e, s, c);
    case Add(c, nonce) => AddHealthy(e, s, c, nonce);
    case Put(c) => PutHealthy(e, s, c);
    case Flush(c, t) => FlushHealthy(e, s, c, t);
    case Upload(c, nonce) => UploadHealthy(e, s, c, nonce);
    case Record(c) => RecordHealthy(e, s, c);
    case _ => IndexHealthy(e, s, a, s1);
  }

  lemma IndexHealthy(e: Env, s: State, a: Action, s1: State)
    requires (a.Insert? || a.Finalize? || a.SaveIndex? || a.Merge?) && Steps(e, s, a, s1) && Healthy(e, s)
    ensures Healthy(e, s1)
  {
    hide OpenOk;
    hide CallersOk;
    hide WrittenOk;
    hide Readable;
    hide MergedView;
    hide Known;
    StepGrows(e, s, a, s1);
    forall pb | Known(s1.view, pb) ensures Readable(e, s.backend, s.contents, pb) {
      match a
      case Insert(x) => InsertKnown(s.view, x, pb);
      case Finalize(full) => FinalizeKnown(s.view, full, pb);
      case Merge(merged) => MergeKnown(s.view, merged, pb);
      case SaveIndex(_) =>
    }
    ViewHealthy(e, s, s1);
  }

  // ---------------------------------------------------------------- every handle is claimed once

  /**
   A pending handle was saved, a handle with contents was saved or is indexed, and
   at most one save found the handle unknown, after which it is known.
   */
  ghost predicate Accounted(s: State, h: BlobHandle) {
    && (h in s.pending ==> s.first[h] + s.again[h] > 0)
    && (h in s.contents ==> Indexed(s.view, h) || s.first[h] + s.again[h] > 0)
    && s.first[h] <= 1 && (s.first[h] == 1 ==> Has(s, h))
  }

  lemma BeginAccounted(s: State, c: nat, claim: BlobHandle, bytes: seq<byte>, storeDuplicate: bool, h: BlobHandle)
    requires c < |s.callers| && Accounted(s, h)
    ensures Accounted(Begun(s, c, claim, bytes, storeDuplicate), h)
  {
    hide Indexed;
  }

  lemma StepAccounted(e: Env, s: State, a: Action, s1: State, h: BlobHandle)
    requires Steps(e, s, a, s1) && Accounted(s, h)
    ensures Accounted(s1, h)
  {
    hide Indexed;
    hide Recorded;
    hide Begun;
    hide Found;
    hide Added;
    hide PutBack;
    hide Flushed;
    hide Uploaded;
    hide CanUpload;
    hide MergedView;
    hide NewlyClosed;
    hide Known;
    hide Saveable;
    StepFrame(e, s, a, s1);
    StepGrows(e, s, a, s1);
    if a.Begin? {
      BeginAccounted(s, a.c, BlobHandle(SaveId(e, a.id, a.bytes), a.t), a.bytes, a.storeDuplicate, h);
    } else {
      if Has(s, h) {
        StepHas(e, s, a, s1, h);
      }
      if Indexed(s.view, h) {
        IndexedKept(s.view, s1.view, h);
      }
    }
  }

  // ---------------------------------------------------------------- index files hold what final indexes know

  /** Some final index knows the location. */
  ghost predicate KnownFinal(view: seq<Snapshot>, pb: PackedBlob) {
    exists i :: 0 <= i < |view| && view[i].final && pb in view[i].Of(pb.blob.handle.tpe)
  }

  ghost predicate Inside(snapshots: seq<Snapshot>, pb: PackedBlob) {
    InSome(snapshots, pb.blob.handle.tpe, pb)
  }

  lemma FinalConcat(a: seq<Snapshot>, b: seq<Snapshot>, pb: PackedBlob)
    ensures KnownFinal(a + b, pb) <==> KnownFinal(a, pb) || KnownFinal(b, pb)
    ensures Inside(a + b, pb) <==> Inside(a, pb) || Inside(b, pb)
  {
    var t := pb.blob.handle.tpe;
    forall i | 0 <= i < |a| ensures (a + b)[i] == a[i] {}
    forall i | 0 <= i < |b| ensures (a + b)[|a| + i] == b[i] {}
    if KnownFinal(a + b, pb) {
      var i :| 0 <= i < |a + b| && (a + b)[i].final && pb in (a + b)[i].Of(t);
      assert i >= |a| ==> b[i - |a|] == (a + b)[i];
    }
    if Inside(a + b, pb) {
      var i :| 0 <= i < |a + b| && pb in (a + b)[i].Of(t);
      assert i >= |a| ==> b[i - |a|] == (a + b)[i];
    }
  }

  lemma InsideWithout(snapshots: seq<Snapshot>, k: nat, pb: PackedBlob)
    requires k < |snapshots|
    ensures Inside(snapshots, pb) <==> Inside(snapshots[..k] + snapshots[k + 1..], pb) || Inside([snapshots[k]], pb)
  {
    hide Inside;
    var a, x, z := snapshots[..k], [snapshots[k]], snapshots[k + 1..];
    assert snapshots == a + (x + z);
    FinalConcat(a, x + z, pb);
    FinalConcat(x, z, pb);
    FinalConcat(a, z, pb);
  }

  lemma FinalSingle(x: Snapshot, pb: PackedBlob)
    ensures KnownFinal([x], pb) <==> x.final && pb in x.Of(pb.blob.handle.tpe)
    ensures Inside([x], pb) <==> pb in x.Of(pb.blob.handle.tpe)
    ensures !KnownFinal([], pb) && !Inside([], pb)
  {
    var xs := [x];
    assert xs[0] == x;
  }

  /** Recording a pack does not touch final indexes. */
  lemma {:induction false} RecordFinal(view: seq<Snapshot>, id: Id, blobs: seq<Blob>, pb: PackedBlob)
    ensures KnownFinal(Stored(view, id, blobs), pb) <==> KnownFinal(view, pb)
  {
    hide KnownFinal;
    hide Inside;
    hide OfType;
    if view == [] {
      FinalSingle(Extended(EMPTY, id, blobs), pb);
    } else {
      assert view == [view[0]] + view[1..];
      FinalConcat([view[0]], view[1..], pb);
      FinalSingle(view[0], pb);
      if view[0].final {
        RecordFinal(view[1..], id, blobs, pb);
        FinalConcat([view[0]], Stored(view[1..], id, blobs), pb);
      } else {
        FinalConcat([Extended(view[0], id, blobs)], view[1..], pb);
        FinalSingle(Extended(view[0], id, blobs), pb);
      }
    }
  }

  /** Closing indexes makes what they know known in final ones, and nothing else. */
  lemma {:induction false} CloseFinal(view: seq<Snapshot>, full: nat -> bool, pb: PackedBlob)
    ensures KnownFinal(Closed(view, full), pb) <==> KnownFinal(view, pb) || Inside(NewlyClosed(view, full), pb)
  {
    hide KnownFinal;
    hide Inside;
    if view == [] {
      assert Closed(view, full) == [];
      FinalSingle(EMPTY, pb);
    } else {
      var last := |view| - 1;
      var init, x := view[..last], view[last];
      var x1 := x.(final := x.final || full(last));
      CloseFinal(init, full, pb);
      assert Closed(view, full) == Closed(init, full) + [x1];
      assert view == init + [x];
      FinalConcat(Closed(init, full), [x1], pb);
      FinalConcat(init, [x], pb);
      FinalSingle(x, pb);
      FinalSingle(x1, pb);
      var closed: seq<Snapshot> := if !x.final && full(last) then [x.(final := true)] else [];
      FinalConcat(NewlyClosed(init, full), closed, pb);
      FinalSingle(x.(final := true), pb);
    }
  }

  /** Merging keeps what final indexes know. */
  lemma MergeFinal(before: seq<Snapshot>, after: seq<Snapshot>, pb: PackedBlob)
    requires MergedView(before, after)
    ensures KnownFinal(after, pb) <==> KnownFinal(before, pb)
  {
    hide KnownFinal;
    var t := pb.blob.handle.tpe;
    MergesToMember(before[0].Of(t), FinalContent(before[1..], t), after[0].Of(t), pb);
    FinalContentKnown(before[1..], pb);
    assert before == [before[0]] + before[1..] && after == [after[0]] + after[1..];
    FinalConcat([before[0]], before[1..], pb);
    FinalConcat([after[0]], after[1..], pb);
    FinalSingle(before[0], pb);
    FinalSingle(after[0], pb);
    NoneFinal(before[1..], pb);
  }

  lemma NoneFinal(view: seq<Snapshot>, pb: PackedBlob)
    ensures !KnownFinal(NonFinal(view), pb)
  {
    forall i | 0 <= i < |NonFinal(view)| ensures !NonFinal(view)[i].final {
      NonFinalMember(view, NonFinal(view)[i]);
    }
  }

  lemma FinalContentKnown(view: seq<Snapshot>, pb: PackedBlob)
    ensures pb in FinalContent(view, pb.blob.handle.tpe) <==> KnownFinal(view, pb)
  {
    FinalContentMember(view, pb.blob.handle.tpe, pb);
  }

  /** Closed indexes, written or not yet, hold exactly what final indexes know. */
  ghost predicate FilesMatch(s: State) {
    forall pb :: KnownFinal(s.view, pb) <==> Inside(s.unsaved, pb) || Inside(s.indexFiles, pb)
  }

  lemma StepFiles(e: Env, s: State, a: Action, s1: State)
    requires Steps(e, s, a, s1) && FilesMatch(s)
    ensures FilesMatch(s1)
  {
    hide Steps;
    hide KnownFinal;
    hide Inside;
    forall pb ensures KnownFinal(s1.view, pb) <==> Inside(s1.unsaved, pb) || Inside(s1.indexFiles, pb) {
      StepFile(e, s, a, s1, pb);
    }
  }

  lemma StepFile(e: Env, s: State, a: Action, s1: State, pb: PackedBlob)
    requires Steps(e, s, a, s1)
    requires KnownFinal(s.view, pb) <==> Inside(s.unsaved, pb) || Inside(s.indexFiles, pb)
    ensures KnownFinal(s1.view, pb) <==> Inside(s1.unsaved, pb) || Inside(s1.indexFiles, pb)
  {
    hide KnownFinal;
    hide Inside;
    hide Stored;
    hide Begun;
    hide Found;
    hide Added;
    hide PutBack;
    hide Flushed;
    hide Uploaded;
    hide CanUpload;
    hide MergedView;
    hide NewlyClosed;
    hide Known;
    hide Saveable;
    StepFrame(e, s, a, s1);
    match a
    case Record(c) => RecordFinal(s.view, s.callers[c].id, s.callers[c].blobs, pb);
    case Insert(x) =>
      FinalConcat(s.view, [x], pb);
      FinalSingle(x, pb);
      FinalConcat(s.indexFiles, [x], pb);
    case Finalize(full) =>
      CloseFinal(s.view, full, pb);
      FinalConcat(s.unsaved, NewlyClosed(s.view, full), pb);
    case SaveIndex(k) =>
      InsideWithout(s.unsaved, k, pb);
      FinalConcat(s.indexFiles, [s.unsaved[k]], pb);
    case Merge(merged) => MergeFinal(s.view, merged, pb);
    case _ =>
  }

  // ---------------------------------------------------------------- runs

  /** A repository in which everything that is indexed can be read, before the first save. */
  ghost predicate Initial(e: Env, s: State) {
    && s.pending == {} && s.data == [] && s.tree == [] && s.written == []
    && s.first == multiset{} && s.again == multiset{}
    && (forall c :: 0 <= c < |s.callers| ==> s.callers[c] == Idle)
    && ViewOk(e, s.backend, s.contents, s.view)
    && (forall h :: h in s.contents ==> Indexed(s.view, h))
    && s.unsaved == [] && FilesMatch(s)
  }

  ghost predicate IsRun(e: Env, run: seq<State>, acts: seq<Action>) {
    && |run| == |acts| + 1 && e.key.Lawful() && Initial(e, run[0])
    && forall i :: 0 <= i < |acts| ==> Steps(e, run[i], acts[i], run[i + 1])
  }

  ghost predicate Inv(e: Env, s: State) {
    Healthy(e, s) && (forall h :: Conserved(s, h)) && (forall h :: Accounted(s, h)) && FilesMatch(s)
  }

  lemma InitialInv(e: Env, s: State)
    requires Initial(e, s)
    ensures Inv(e, s)
  {
    hide ViewOk;
    hide Indexed;
    forall h ensures Conserved(s, h) {
      IdleCount(s.callers, h);
    }
  }

  lemma {:induction false} IdleCount(callers: seq<Caller>, h: BlobHandle)
    requires forall c :: 0 <= c < |callers| ==> callers[c] == Idle
    ensures CallersCount(callers, h) == 0
  {
    if callers != [] {
      IdleCount(callers[..|callers| - 1], h);
    }
  }

  lemma StepInv(e: Env, s: State, a: Action, s1: State)
    requires e.key.Lawful() && Steps(e, s, a, s1) && Inv(e, s)
    ensures Inv(e, s1)
  {
    hide Steps;
    hide Healthy;
    hide Conserved;
    hide Accounted;
    hide FilesMatch;
    StepHealthy(e, s, a, s1);
    StepFiles(e, s, a, s1);
    forall h ensures Conserved(s1, h) && Accounted(s1, h) {
      StepConserves(e, s, a, s1, h);
      StepAccounted(e, s, a, s1, h);
    }
  }

  /** The invariant holds in every state of every run. */
  lemma {:induction false} RunInv(e: Env, run: seq<State>, acts: seq<Action>, i: nat)
    requires IsRun(e, run, acts) && i <= |acts|
    ensures Inv(e, run[i])
  {
    hide Steps;
    hide Initial;
    hide Inv;
    if i == 0 {
      InitialInv(e, run[0]);
    } else {
      RunInv(e, run, acts, i - 1);
      assert Steps(e, run[i - 1], acts[i - 1], run[i - 1 + 1]);
      StepInv(e, run[i - 1], acts[i - 1], run[i]);
    }
  }

  /** A handle that is known at some point is known ever after. */
  lemma {:induction false} RunHas(e: Env, run: seq<State>, acts: seq<Action>, i: nat, j: nat, h: BlobHandle)
    requires IsRun(e, run, acts) && i <= j <= |acts| && Has(run[i], h)
    ensures Has(run[j], h)
  {
    hide Steps;
    hide Initial;
    hide Has;
    if i < j {
      RunHas(e, run, acts, i, j - 1, h);
      assert Steps(e, run[j - 1], acts[j - 1], run[j - 1 + 1]);
      StepHas(e, run[j - 1], acts[j - 1], run[j], h);
    }
  }

  /** The step is a save of the handle. */
  ghost predicate Saves(e: Env, a: Action, h: BlobHandle) {
    a.Begin? && h == BlobHandle(SaveId(e, a.id, a.bytes), a.t)
  }

  /** Of any two saves of a handle, the later one finds it known. */
  lemma OneFindsUnknown(e: Env, run: seq<State>, acts: seq<Action>, i: nat, j: nat, h: BlobHandle)
    requires IsRun(e, run, acts) && i < j < |acts| && Saves(e, acts[i], h) && Saves(e, acts[j], h)
    ensures Has(run[j], h)
  {
    hide Initial;
    hide Indexed;
    assert Steps(e, run[i], acts[i], run[i + 1]);
    assert Has(run[i + 1], h);
    RunHas(e, run, acts, i + 1, j, h);
  }

  ghost predicate NoDuplicates(e: Env, acts: seq<Action>, h: BlobHandle) {
    forall i :: 0 <= i < |acts| && Saves(e, acts[i], h) ==> !acts[i].storeDuplicate
  }

  lemma {:induction false} NeverAgain(e: Env, run: seq<State>, acts: seq<Action>, i: nat, h: BlobHandle)
    requires IsRun(e, run, acts) && i <= |acts| && NoDuplicates(e, acts, h)
    ensures run[i].again[h] == 0
  {
    hide Initial;
    if i == 0 {
      InitialAgain(e, run[0], h);
    } else {
      NeverAgain(e, run, acts, i - 1, h);
      assert Steps(e, run[i - 1], acts[i - 1], run[i - 1 + 1]);
      StepAgain(e, run[i - 1], acts[i - 1], run[i], h);
    }
  }

  lemma InitialAgain(e: Env, s: State, h: BlobHandle)
    requires Initial(e, s)
    ensures s.again[h] == 0
  {
    hide ViewOk;
  }

  lemma StepAgain(e: Env, s: State, a: Action, s1: State, h: BlobHandle)
    requires Steps(e, s, a, s1) && (Saves(e, a, h) ==> !a.storeDuplicate)
    ensures s1.again[h] == s.again[h]
  {
    hide Recorded;
    hide Found;
    hide Added;
    hide PutBack;
    hide Flushed;
    hide Uploaded;
    hide CanUpload;
    hide MergedView;
    hide NewlyClosed;
    hide Known;
    hide Has;
    StepFrame(e, s, a, s1);
  }

  /** Without stored duplicates a blob is in at most one place, however its saves interleave. */
  lemma PackedOnce(e: Env, run: seq<State>, acts: seq<Action>, i: nat, h: BlobHandle)
    requires IsRun(e, run, acts) && i <= |acts| && NoDuplicates(e, acts, h)
    ensures var s := run[i];
            OpenCount(s.data, h) + OpenCount(s.tree, h) + CallersCount(s.callers, h) + WrittenCount(s.written, h) <= 1
  {
    hide Initial;
    hide Steps;
    hide Healthy;
    hide OpenCount;
    hide WrittenCount;
    hide CallersCount;
    hide Indexed;
    NeverAgain(e, run, acts, i, h);
    RunInv(e, run, acts, i);
    assert Conserved(run[i], h) && Accounted(run[i], h);
  }

  lemma {:induction false} ContentsKept(e: Env, run: seq<State>, acts: seq<Action>, i: nat, j: nat, h: BlobHandle)
    requires IsRun(e, run, acts) && i <= j <= |acts| && h in run[i].contents
    ensures h in run[j].contents && run[j].contents[h] == run[i].contents[h]
  {
    hide Initial;
    if i < j {
      ContentsKept(e, run, acts, i, j - 1, h);
      assert Steps(e, run[j - 1], acts[j - 1], run[j - 1 + 1]);
      StepContents(e, run[j - 1], acts[j - 1], run[j], h);
    }
  }

  lemma StepContents(e: Env, s: State, a: Action, s1: State, h: BlobHandle)
    requires Steps(e, s, a, s1) && h in s.contents
    ensures h in s1.contents && s1.contents[h] == s.contents[h]
  {
    hide Recorded;
    hide Found;
    hide Added;
    hide PutBack;
    hide Flushed;
    hide Uploaded;
    hide CanUpload;
    hide MergedView;
    hide NewlyClosed;
    hide Known;
    hide Has;
    StepFrame(e, s, a, s1);
  }

  // ---------------------------------------------------------------- after a flush

  /** No caller is at work and no packer is open. */
  ghost predicate Quiet(s: State) {
    s.data == [] && s.tree == [] && forall c :: 0 <= c < |s.callers| ==> s.callers[c] == Idle
  }

  /** The handle is indexed, and wherever it is said to be the plaintext can be read. */
  ghost predicate Loadable(e: Env, s: State, h: BlobHandle, bytes: seq<byte>) {
    && Indexed(s.view, h) && h in s.contents && s.contents[h] == bytes
    && forall pb :: pb in LookedUp(s.view, h) ==> pb.blob.handle == h && Readable(e, s.backend, s.contents, pb)
  }

  lemma {:induction false} WrittenIndexed(view: seq<Snapshot>, written: seq<Written>, h: BlobHandle)
    requires WrittenOk(view, written) && WrittenCount(written, h) > 0
    ensures Indexed(view, h)
  {
    hide Indexed;
    hide Known;
    var last := |written| - 1;
    if BlobCount(written[last].blobs, h) > 0 {
      var b := Counted(written[last].blobs, h);
      assert PackKnown(view, written[last]);
      assert Known(view, PackedBlob(b, written[last].id));
      IndexedKnown(view, h);
    } else {
      WrittenIndexed(view, written[..last], h);
    }
  }

  lemma {:induction false} Counted(blobs: seq<Blob>, h: BlobHandle) returns (b: Blob)
    requires BlobCount(blobs, h) > 0
    ensures b in blobs && b.handle == h
  {
    b := blobs[|blobs| - 1];
    if b.handle != h {
      b := Counted(blobs[..|blobs| - 1], h);
    }
  }

  lemma QuietLoadable(e: Env, s: State, h: BlobHandle)
    requires Inv(e, s) && Quiet(s) && h in s.contents
    ensures Loadable(e, s, h, s.contents[h])
  {
    hide LookedUp;
    hide Readable;
    hide CallersCount;
    hide WrittenCount;
    hide CallersOk;
    hide WrittenOk;
    hide PackOk;
    assert Conserved(s, h) && Accounted(s, h);
    IdleCount(s.callers, h);
    if !Indexed(s.view, h) {
      WrittenIndexed(s.view, s.written, h);
    }
    forall pb | pb in LookedUp(s.view, h) ensures pb.blob.handle == h && Readable(e, s.backend, s.contents, pb) {
      LookedUpMember(s.view, h, pb);
      assert Known(s.view, pb);
    }
  }

  /** Once everything is flushed, every blob that was saved can be loaded from wherever it is indexed. */
  lemma SavedLoadable(e: Env, run: seq<State>, acts: seq<Action>, i: nat, j: nat, h: BlobHandle)
    requires IsRun(e, run, acts) && i < j <= |acts| && Saves(e, acts[i], h) && Quiet(run[j])
    ensures Loadable(e, run[j], h, acts[i].bytes)
  {
    hide Initial;
    hide Inv;
    hide Loadable;
    hide Indexed;
    assert Steps(e, run[i], acts[i], run[i + 1]);
    assert run[i + 1].contents[h] == acts[i].bytes;
    ContentsKept(e, run, acts, i + 1, j, h);
    RunInv(e, run, acts, j);
    QuietLoadable(e, run[j], h);
  }

  // ---------------------------------------------------------------- every written pack can be listed

  lemma {:induction false} TotalAtLeast(blobs: seq<Blob>)
    requires forall b :: b in blobs ==> b.length >= NONCE_SIZE
    ensures TotalLength(blobs) >= NONCE_SIZE * |blobs|
  {
    if blobs != [] {
      TotalAtLeast(blobs[..|blobs| - 1]);
    }
  }

  /** A packer never holds so many blobs that its header is too large: the last one starts early enough. */
  lemma PackHeaderFits(e: Env, contents: map<BlobHandle, seq<byte>>, t: BlobType, p: Pack)
    requires PackOk(e, contents, t, p)
    ensures HeaderFits(|p.blobs|)
  {
    hide TotalLength;
    if p.blobs != [] {
      var last := |p.blobs| - 1;
      assert p.blobs[last] in p.blobs;
      forall b | b in p.blobs ensures b.length >= NONCE_SIZE {
        assert Holds(e, p.bytes, contents, b);
      }
      TotalAtLeast(p.blobs[..last]);
    }
  }

  /** The pack is in the backend, under its hash, and listing it gives these blobs. */
  ghost predicate Listable(e: Env, backend: map<Id, seq<byte>>, id: Id, blobs: seq<Blob>) {
    && id in backend && e.hash(backend[id]) == id
    && Listing(e.key, backend[id], |backend[id]|) == Ok((blobs, HEADER_SIZE + |blobs| * ENTRY_SIZE))
  }

  lemma FileListable(e: Env, contents: map<BlobHandle, seq<byte>>, t: BlobType, p: Pack, nonce: seq<byte>)
    requires e.key.Lawful() && |nonce| == NONCE_SIZE && Storable(t) && PackOk(e, contents, t, p)
    requires p.blobs != [] && AllStorable(p.blobs)
    ensures var file := File(e, p, nonce);
            Listing(e.key, file, |file|) == Ok((p.blobs, HEADER_SIZE + |p.blobs| * ENTRY_SIZE))
  {
    hide TotalLength;
    hide Consecutive;
    hide Listing;
    hide Key.Lawful;
    hide AllHeld;
    PackHeaderFits(e, contents, t, p);
    assert forall k :: 0 <= k < |p.blobs| ==> p.blobs[k] in p.blobs;
    PackRoundTrip(e.key, nonce, p.bytes, p.blobs);
  }

  ghost predicate NoneEmpty(packs: seq<Pack>) {
    forall i :: 0 <= i < |packs| ==> packs[i].blobs != []
  }

  ghost predicate CallerListable(e: Env, backend: map<Id, seq<byte>>, c: Caller) {
    && (c.Closing? ==> c.pack.blobs != [])
    && (c.Storing? ==> Listable(e, backend, c.id, c.blobs))
  }

  /** Open packers are not empty, and every written pack can be listed. */
  ghost predicate AllListable(e: Env, s: State) {
    && NoneEmpty(s.data) && NoneEmpty(s.tree)
    && (forall c :: 0 <= c < |s.callers| ==> CallerListable(e, s.backend, s.callers[c]))
    && (forall i :: 0 <= i < |s.written| ==> Listable(e, s.backend, s.written[i].id, s.written[i].blobs))
  }

  lemma UploadListable(e: Env, s: State, c: nat, nonce: seq<byte>)
    requires e.key.Lawful() && CanUpload(e, s, c, nonce) && Healthy(e, s) && AllListable(e, s)
    ensures AllListable(e, Uploaded(e, s, c, nonce))
  {
    hide OpenOk;
    hide ViewOk;
    hide WrittenOk;
    hide PackOk;
    hide Listing;
    hide File;
    hide Key.Lawful;
    var p := s.callers[c];
    assert CallerOk(e, s.backend, s.contents, p) && CallerListable(e, s.backend, p);
    FileListable(e, s.contents, p.tpe, p.pack, nonce);
  }

  lemma StepListable(e: Env, s: State, a: Action, s1: State)
    requires e.key.Lawful() && Steps(e, s, a, s1) && Healthy(e, s) && AllListable(e, s)
    ensures AllListable(e, s1)
  {
    hide Healthy;
    hide AllListable;
    hide Begun;
    hide Found;
    hide Added;
    hide PutBack;
    hide Flushed;
    hide Uploaded;
    hide CanUpload;
    hide Recorded;
    hide MergedView;
    hide Known;
    hide Key.Lawful;
    match a
    case Begin(c, t, id, bytes, storeDuplicate) =>
      BeginListable(e, s, c, BlobHandle(SaveId(e, id, bytes), t), bytes, storeDuplicate);
    case Find(c) => FindListable(e, s, c);
    case Add(c, nonce) => AddListable(e, s, c, nonce);
    case Put(c) => PutListable(e, s, c);
    case Flush(c, t) => FlushListable(e, s, c, t);
    case Upload(c, nonce) => UploadListable(e, s, c, nonce);
    case Record(c) => RecordListable(e, s, c);
    case _ => SameListable(e, s, s1);
  }

  lemma BeginListable(e: Env, s: State, c: nat, claim: BlobHandle, bytes: seq<byte>, storeDuplicate: bool)
    requires c < |s.callers| && AllListable(e, s)
    ensures AllListable(e, Begun(s, c, claim, bytes, storeDuplicate))
  {
    hide Listable;
    hide Has;
  }

  lemma FindListable(e: Env, s: State, c: nat)
    requires c < |s.callers| && s.callers[c].Claiming? && AllListable(e, s)
    ensures AllListable(e, Found(s, c))
  {
    hide Listable;
    hide Taken;
    var open := Open(s, s.callers[c].h.tpe);
    if open != [] {
      TakenNoneEmpty(open);
    }
  }

  lemma TakenNoneEmpty(packs: seq<Pack>)
    requires packs != [] && NoneEmpty(packs)
    ensures NoneEmpty(Taken(packs))
  {
  }

  lemma AddListable(e: Env, s: State, c: nat, nonce: seq<byte>)
    requires c < |s.callers| && s.callers[c].Packing? && AllListable(e, s)
    ensures AllListable(e, Added(e, s, c, nonce))
  {
    hide Listable;
  }

  lemma PutListable(e: Env, s: State, c: nat)
    requires c < |s.callers| && s.callers[c].Closing? && AllListable(e, s)
    ensures AllListable(e, PutBack(s, c))
  {
    hide Listable;
    assert CallerListable(e, s.backend, s.callers[c]);
  }

  lemma FlushListable(e: Env, s: State, c: nat, t: BlobType)
    requires c < |s.callers| && Open(s, t) != [] && AllListable(e, s)
    ensures AllListable(e, Flushed(s, c, t))
  {
    hide Listable;
  }

  lemma RecordListable(e: Env, s: State, c: nat)
    requires c < |s.callers| && s.callers[c].Storing? && AllListable(e, s)
    ensures AllListable(e, Recorded(s, c))
  {
    hide Listable;
    hide Stored;
    assert CallerListable(e, s.backend, s.callers[c]);
  }

  lemma SameListable(e: Env, s: State, s1: State)
    requires AllListable(e, s)
    requires s1 == s.(view := s1.view, unsaved := s1.unsaved, indexFiles := s1.indexFiles)
    ensures AllListable(e, s1)
  {
    hide Listable;
  }

  /** In every run, every pack that was recorded is in the backend and lists exactly its blobs. */
  lemma {:induction false} RunListable(e: Env, run: seq<State>, acts: seq<Action>, i: nat)
    requires IsRun(e, run, acts) && i <= |acts|
    ensures AllListable(e, run[i])
  {
    hide Steps;
    hide Inv;
    hide AllListable;
    if i == 0 {
      InitialListable(e, run[0]);
    } else {
      RunListable(e, run, acts, i - 1);
      assert Steps(e, run[i - 1], acts[i - 1], run[i - 1 + 1]);
      RunInv(e, run, acts, i - 1);
      InvHealthy(e, run[i - 1]);
      StepListable(e, run[i - 1], acts[i - 1], run[i]);
    }
  }

  lemma InitialListable(e: Env, s: State)
    requires Initial(e, s)
    ensures AllListable(e, s)
  {
    hide ViewOk;
  }

  lemma InvHealthy(e: Env, s: State)
    requires Inv(e, s)
    ensures Healthy(e, s)
  {
    hide Healthy;
  }
}
