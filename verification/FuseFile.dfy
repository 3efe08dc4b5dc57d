/**
 Reading a file of the mounted repository: a file is a list of blobs, their
 cumulative sizes tell where a read starts, and the blobs come from a cache or
 from the repository.
 */
module FuseFiles {
  import opened Blobs
  import opened BlobLrus

  /** What the repository says about blobs: their sizes, and their contents. */
  datatype Repo = Repo(lookupSize: Id -> Option<nat>, load: Id -> Option<Buffer>)

  ghost predicate AllFound(repo: Repo, content: seq<Id>) {
    forall k :: 0 <= k < |content| ==> repo.lookupSize(content[k]).Some?
  }

  /** The size of a file, by the indexed sizes of its blobs. */
  ghost function Size(repo: Repo, content: seq<Id>): nat
    requires AllFound(repo, content)
  {
    if content == [] then 0
    else Size(repo, content[..|content| - 1]) + repo.lookupSize(content[|content| - 1]).value
  }

  lemma SizeStep(repo: Repo, content: seq<Id>, k: nat)
    requires AllFound(repo, content) && k < |content|
    ensures Size(repo, content[..k + 1]) == Size(repo, content[..k]) + repo.lookupSize(content[k]).value
  {
    assert content[..k + 1][..k] == content[..k];
  }

  lemma {:induction false} SizeGrows(repo: Repo, content: seq<Id>, j: nat, k: nat)
    requires AllFound(repo, content) && j <= k <= |content|
    ensures Size(repo, content[..j]) <= Size(repo, content[..k])
  {
    if j < k {
      SizeGrows(repo, content, j, k - 1);
      SizeStep(repo, content, k - 1);
    }
  }

  /** Indexed sizes are the sizes of what is loaded. */
  ghost predicate SizesMatch(repo: Repo, content: seq<Id>) {
    AllFound(repo, content) && forall k :: 0 <= k < |content| && repo.load(content[k]).Some? ==>
      repo.lookupSize(content[k]).value == |repo.load(content[k]).value.data|
  }

  ghost predicate AllLoad(repo: Repo, content: seq<Id>) {
    forall k :: 0 <= k < |content| ==> repo.load(content[k]).Some?
  }

  /** The bytes of a file. */
  ghost function Whole(repo: Repo, content: seq<Id>): seq<byte>
    requires AllLoad(repo, content)
  {
    if content == [] then []
    else Whole(repo, content[..|content| - 1]) + repo.load(content[|content| - 1]).value.data
  }

  lemma {:induction false} WholeLength(repo: Repo, content: seq<Id>)
    requires AllLoad(repo, content) && SizesMatch(repo, content)
    ensures |Whole(repo, content)| == Size(repo, content)
  {
    if content != [] {
      WholeLength(repo, content[..|content| - 1]);
    }
  }

  lemma {:induction false} WholePrefix(repo: Repo, content: seq<Id>, k: nat)
    requires AllLoad(repo, content) && k <= |content|
    ensures Whole(repo, content[..k]) <= Whole(repo, content)
    decreases |content|
  {
    if k < |content| {
      WholePrefix(repo, content[..|content| - 1], k);
      assert content[..|content| - 1][..k] == content[..k];
    } else {
      assert content[..k] == content;
    }
  }

  function Min(a: int, b: int): int {
    if a < b then a else b
  }

  /** The bytes of a file that a read asks for, as far as they exist. */
  ghost function Wanted(whole: seq<byte>, offset: nat, size: nat): seq<byte> {
    whole[Min(offset, |whole|)..Min(offset + size, |whole|)]
  }

  /** Every cached blob is what would be loaded. */
  ghost predicate CacheOk(repo: Repo, entries: seq<Entry>) {
    forall i :: 0 <= i < |entries| ==>
      repo.load(entries[i].id).Some? && repo.load(entries[i].id).value.data == entries[i].blob.data
  }

  class OpenFile {
    const repo: Repo
    const content: seq<Id>
    const size: nat
    const cumsize: array<nat>

    /** The cumulative sizes, and the real size of the file. */
    ghost predicate Valid()
      reads this, cumsize
    {
      && AllFound(repo, content) && Size(repo, content) < UINT64_RANGE
      && cumsize.Length == |content| + 1 && size == Size(repo, content)
      && forall k :: 0 <= k <= |content| ==> cumsize[k] == Size(repo, content[..k])
    }

    constructor (repo: Repo, content: seq<Id>, cumsize: array<nat>, size: nat)
      ensures this.repo == repo && this.content == content && this.cumsize == cumsize && this.size == size
    {
      this.repo, this.content, this.cumsize, this.size := repo, content, cumsize, size;
    }

    /** The first position whose cumulative size exceeds the offset. */
    method Search(offset: nat) returns (i: nat)
      requires Valid()
      ensures 0 < i <= cumsize.Length
      ensures forall k :: 0 <= k < i ==> cumsize[k] <= offset
      ensures i < cumsize.Length ==> cumsize[i] > offset
    {
      hide Size;
      var j := cumsize.Length;
      i := 0;
      while i < j
        invariant 0 <= i <= j <= cumsize.Length
        invariant forall k :: 0 <= k < i ==> cumsize[k] <= offset
        invariant j < cumsize.Length ==> cumsize[j] > offset
      {
        var h := (i + j) / 2;
        if cumsize[h] > offset {
          j := h;
        } else {
          forall k | 0 <= k <= h ensures cumsize[k] <= offset {
            SizeGrows(repo, content, k, h);
          }
          i := h + 1;
        }
      }
      StartsAtZero(repo, content);
    }

    /** The i-th blob, from the cache or from the repository. */
    method GetBlobAt(cache: Cache, i: nat) returns (blob: Option<seq<byte>>)
      requires i < |content| && cache.Valid() && CacheOk(repo, cache.lru)
      modifies cache
      ensures cache.Valid() && CacheOk(repo, cache.lru)
      ensures blob == if repo.load(content[i]).Some? then Some(repo.load(content[i]).value.data) else None
    {
      hide Cache.Valid;
      ghost var was := cache.lru;
      var cached := cache.Get(content[i]);
      if cached.Some? {
        ghost var k :| Used(was, k, Entry(content[i], cached.value), cache.lru);
        UsedOk(repo, was, k, Entry(content[i], cached.value), cache.lru);
        return Some(cached.value.data);
      }
      var loaded := repo.load(content[i]);
      if loaded.None? {
        return None;
      }
      var _, n := cache.Add(content[i], loaded.value);
      blob := Some(loaded.value.data);
    }
  }

  lemma StartsAtZero(repo: Repo, content: seq<Id>)
    requires AllFound(repo, content)
    ensures Size(repo, content[..0]) == 0
  {
  }

  lemma UsedOk(repo: Repo, was: seq<Entry>, k: nat, e: Entry, now: seq<Entry>)
    requires CacheOk(repo, was) && Used(was, k, e, now)
    ensures CacheOk(repo, now) && repo.load(e.id).Some? && repo.load(e.id).value.data == e.blob.data
  {
  }

  /** Opens a file: its size is the sum of the indexed sizes, whatever the node says. */
  method Open(repo: Repo, content: seq<Id>) returns (f: OpenFile?)
    ensures f != null <==> AllFound(repo, content)
    ensures f != null ==> fresh(f) && fresh(f.cumsize) && f.repo == repo && f.content == content
    ensures f != null && Size(repo, content) < UINT64_RANGE ==> f.Valid()
  {
    hide Size;
    ghost var fits := AllFound(repo, content) && Size(repo, content) < UINT64_RANGE;
    var bytes: nat := 0;
    var cumsize := new nat[|content| + 1](_ => 0);
    StartsAtZero(repo, []);
    for i := 0 to |content|
      invariant AllFound(repo, content[..i])
      invariant fits ==> bytes == Size(repo, content[..i])
      invariant fits ==> forall k :: 0 <= k <= i ==> cumsize[k] == Size(repo, content[..k])
    {
      var size := repo.lookupSize(content[i]);
      if size.None? {
        return null;
      }
      if fits {
        SizeStep(repo, content, i);
        SizeGrows(repo, content, i + 1, |content|);
        assert content[..|content|] == content;
      }
      bytes := (bytes + size.value) % UINT64_RANGE;
      cumsize[i + 1] := bytes;
      assert content[..i + 1] == content[..i] + [content[i]];
    }
    assert content[..|content|] == content;
    f := new OpenFile(repo, content, cumsize, bytes);
  }

  // ---------------------------------------------------------------- reading

  /** A blob is where the cumulative sizes say. */
  lemma BlobInWhole(repo: Repo, content: seq<Id>, i: nat)
    requires AllLoad(repo, content) && SizesMatch(repo, content) && i < |content|
    ensures var start, data := Size(repo, content[..i]), repo.load(content[i]).value.data;
            && start + |data| == Size(repo, content[..i + 1]) <= |Whole(repo, content)|
            && Whole(repo, content)[start..start + |data|] == data
  {
    hide Size;
    var whole, data := Whole(repo, content), repo.load(content[i]).value.data;
    WholePrefix(repo, content, i + 1);
    WholeLength(repo, content[..i]);
    WholeLength(repo, content[..i + 1]);
    SizeStep(repo, content, i);
    assert content[..i + 1][..i] == content[..i];
    assert Whole(repo, content[..i + 1]) == Whole(repo, content[..i]) + data;
    var start := |Whole(repo, content[..i])|;
    assert whole[start..start + |data|] == Whole(repo, content[..i + 1])[start..];
  }

  /** Copies as much as fits, and says how much that was. */
  method Copy(dst: array<byte>, from: nat, to: nat, src: seq<byte>) returns (n: nat)
    requires from <= to <= dst.Length
    modifies dst
    ensures n == Min(to - from, |src|)
    ensures dst[..from] == old(dst[..from]) && dst[from..from + n] == src[..n]
  {
    n := Min(to - from, |src|);
    forall k | 0 <= k < n {
      dst[from + k] := src[k];
    }
  }

  /**
   How far a read from offset `at` has come: it is at blob i, of which `skip` bytes
   are to be passed over, has read n bytes, and still wants `remaining`.
   */
  ghost predicate Reached(repo: Repo, content: seq<Id>, i: nat, at: nat, skip: nat, n: nat, remaining: nat) {
    && AllFound(repo, content) && i <= |content|
    && (remaining > 0 ==> Size(repo, content[..i]) + skip == at + n)
    && (skip > 0 ==> n == 0 && (i < |content| ==> skip < repo.lookupSize(content[i]).value))
  }

  /** What has been read so far. */
  ghost predicate Filled(whole: seq<byte>, at: nat, n: nat, got: seq<byte>) {
    |got| == n && (n > 0 ==> at + n <= |whole| && got == whole[at..at + n])
  }

  lemma ReachedStart(repo: Repo, content: seq<Id>, i: nat, at: nat, remaining: nat)
    requires AllFound(repo, content) && i <= |content| && Size(repo, content[..i]) <= at
    requires i < |content| ==> at < Size(repo, content[..i + 1])
    ensures Reached(repo, content, i, at, at - Size(repo, content[..i]), 0, remaining)
  {
    hide Size;
    if i < |content| {
      SizeStep(repo, content, i);
    }
  }

  lemma ReachedStep(repo: Repo, content: seq<Id>, i: nat, at: nat, skip: nat, n: nat, remaining: nat)
    requires Reached(repo, content, i, at, skip, n, remaining) && remaining > 0 && i < |content|
             && SizesMatch(repo, content)
    requires repo.load(content[i]).Some?
    ensures var data := repo.load(content[i]).value.data;
            skip <= |data| &&
            var copied := Min(remaining, |data| - skip);
            Reached(repo, content, i + 1, at, 0, n + copied, remaining - copied)
  {
    hide Size;
    SizeStep(repo, content, i);
  }

  lemma FilledStep(repo: Repo, content: seq<Id>, i: nat, at: nat, skip: nat, n: nat, remaining: nat, got: seq<byte>)
    requires Reached(repo, content, i, at, skip, n, remaining) && remaining > 0 && i < |content|
             && SizesMatch(repo, content)
    requires AllLoad(repo, content) && Filled(Whole(repo, content), at, n, got)
    ensures var data := repo.load(content[i]).value.data;
            skip <= |data| &&
            var copied := Min(remaining, |data| - skip);
            Filled(Whole(repo, content), at, n + copied, got + data[skip..skip + copied])
  {
    hide Size;
    hide Whole;
    BlobInWhole(repo, content, i);
    var whole, data := Whole(repo, content), repo.load(content[i]).value.data;
    SizeStep(repo, content, i);
    var start, copied := Size(repo, content[..i]), Min(remaining, |data| - skip);
    Pieces(whole, at, n, start, skip, copied, data);
  }

  lemma Pieces(whole: seq<byte>, at: nat, n: nat, start: nat, skip: nat, copied: nat, data: seq<byte>)
    requires start + |data| <= |whole| && whole[start..start + |data|] == data && skip + copied <= |data|
    requires start + skip == at + n
    ensures whole[at + n..at + n + copied] == data[skip..skip + copied]
    ensures whole[at..at + n] + whole[at + n..at + n + copied] == whole[at..at + n + copied]
  {
    SliceOfSlice(whole, start, start + |data|, skip, skip + copied);
  }

  lemma ReadEnds(repo: Repo, content: seq<Id>, i: nat, at: nat, skip: nat, n: nat, remaining: nat, got: seq<byte>)
    requires AllLoad(repo, content) && SizesMatch(repo, content)
    requires Reached(repo, content, i, at, skip, n, remaining) && Filled(Whole(repo, content), at, n, got)
    requires remaining == 0 || i == |content|
    ensures got == Wanted(Whole(repo, content), at, n + remaining)
  {
    hide Size;
    hide Whole;
    WholeLength(repo, content);
    assert content[..|content|] == content;
  }

  /**
   Reads up to `size` bytes from an offset into dst, and says how many.  If the
   blobs can be loaded these are the bytes of the file there, as far as the file
   goes, whatever the cache holds.
   */
  method Read(f: OpenFile, cache: Cache, offset: nat, size: nat, dst: array<byte>) returns (ok: bool, n: nat)
    requires f.Valid() && SizesMatch(f.repo, f.content) && size <= dst.Length
    requires cache.Valid() && CacheOk(f.repo, cache.lru)
    modifies cache, dst
    ensures cache.Valid() && CacheOk(f.repo, cache.lru) && n <= size
    ensures AllLoad(f.repo, f.content) ==> ok && dst[..n] == Wanted(Whole(f.repo, f.content), offset, size)
  {
    hide Size;
    hide Whole;
    hide CacheOk;
    hide SizesMatch;
    hide Wanted;
    hide Reached;
    hide Filled;
    hide Cache.Valid;
    ghost var repo, content := f.repo, f.content;
    ok, n := true, 0;
    if f.size == 0 {
      EmptyRead(repo, content, offset, size);
      return;
    }
    var i := f.Search(offset);
    i := i - 1;
    var skip := offset - f.cumsize[i];
    var remaining := size;
    ReachedStart(repo, content, i, offset, remaining);
    FilledNothing(repo, content, offset);
    while remaining > 0 && i < |f.content|
      invariant cache.Valid() && CacheOk(repo, cache.lru)
      invariant i <= |content| && n + remaining == size && 0 <= skip
      invariant Reached(repo, content, i, offset, skip, n, remaining)
      invariant AllLoad(repo, content) ==> Filled(Whole(repo, content), offset, n, dst[..n])
      decreases |content| - i
    {
      var blob := f.GetBlobAt(cache, i);
      if blob.None? {
        return false, n;
      }
      ReachedStep(repo, content, i, offset, skip, n, remaining);
      if AllLoad(repo, content) {
        FilledStep(repo, content, i, offset, skip, n, remaining, dst[..n]);
      }
      var rest := blob.value[skip..];
      ghost var before := dst[..n];
      var copied := Copy(dst, n, n + remaining, rest);
      assert dst[..n + copied] == before + rest[..copied];
      assert rest[..copied] == blob.value[skip..skip + copied];
      skip := 0;
      remaining := remaining - copied;
      n := n + copied;
      i := i + 1;
    }
    if AllLoad(repo, content) {
      ReadEnds(repo, content, i, offset, skip, n, remaining, dst[..n]);
    }
  }

  lemma EmptyRead(repo: Repo, content: seq<Id>, offset: nat, size: nat)
    requires SizesMatch(repo, content) && Size(repo, content) == 0
    ensures AllLoad(repo, content) ==> Wanted(Whole(repo, content), offset, size) == []
  {
    if AllLoad(repo, content) {
      WholeLength(repo, content);
    }
  }

  lemma FilledNothing(repo: Repo, content: seq<Id>, offset: nat)
    ensures AllLoad(repo, content) ==> Filled(Whole(repo, content), offset, 0, [])
  {
  }
}
