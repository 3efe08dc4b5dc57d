/**
 A cache of blobs that is bounded by the number of bytes it holds.  It sits on a
 least-recently-used list that is itself bounded by a number of entries.
 */
module BlobLrus {
  import opened Blobs

  /** What an entry is taken to cost besides its buffer. */
  const OVERHEAD: nat := ID_SIZE + 64

  /** A buffer: its capacity and what is in it. */
  datatype Buffer = Buffer(cap: nat, data: seq<byte>)

  datatype Entry = Entry(id: Id, blob: Buffer)

  function Cost(e: Entry): nat {
    e.blob.cap + OVERHEAD
  }

  /** The bytes that some entries account for. */
  function Total(entries: seq<Entry>): nat {
    if entries == [] then 0 else Cost(entries[0]) + Total(entries[1..])
  }

  ghost predicate DistinctIds(entries: seq<Entry>) {
    forall i, j :: 0 <= i < j < |entries| ==> entries[i].id != entries[j].id
  }

  ghost predicate HasId(entries: seq<Entry>, id: Id) {
    exists i :: 0 <= i < |entries| && entries[i].id == id
  }

  lemma {:induction false} TotalConcat(a: seq<Entry>, b: seq<Entry>)
    ensures Total(a + b) == Total(a) + Total(b)
  {
    if a == [] {
      assert a + b == b;
    } else {
      TotalConcat(a[1..], b);
      assert a + b == [a[0]] + (a[1..] + b);
    }
  }

  /** The byte bound implies the bound on the number of entries. */
  lemma {:induction false} TotalBounds(entries: seq<Entry>, size: nat)
    requires Total(entries) <= size
    ensures |entries| * OVERHEAD <= Total(entries) && |entries| <= size / OVERHEAD
  {
    if entries != [] {
      TotalBounds(entries[1..], size);
    }
  }

  /** A largest buffer among those of some entries; an empty buffer does not count. */
  ghost predicate Largest(evicted: seq<Entry>, buffer: Option<Buffer>) {
    match buffer
    case None => forall k :: 0 <= k < |evicted| ==> evicted[k].blob.cap == 0
    case Some(b) =>
      && b.cap > 0 && (exists k :: 0 <= k < |evicted| && evicted[k].blob == b)
      && forall k :: 0 <= k < |evicted| ==> evicted[k].blob.cap <= b.cap
  }

  class Cache {
    var lru: seq<Entry>   // the least recently used first
    const maxEntries: nat
    var free: int
    const size: int

    /** The bytes add up, the number of entries is in bounds, and no identifier is there twice. */
    ghost predicate Valid()
      reads this
    {
      && 0 <= free && free + Total(lru) == size && maxEntries == size / OVERHEAD && maxEntries > 0
      && |lru| <= maxEntries && DistinctIds(lru)
    }

    /** A cache needs room for one entry at least. */
    constructor (size: int)
      requires size >= OVERHEAD
      ensures Valid() && lru == [] && free == size && this.size == size
    {
      this.size := size;
      free := size;
      maxEntries := size / OVERHEAD;
      lru := [];
    }

    /** Takes the oldest entry out and gives its bytes back. */
    method RemoveOldest() returns (e: Entry)
      requires lru != []
      modifies this
      ensures e == old(lru)[0] && lru == old(lru)[1..] && free == old(free) + Cost(e)
    {
      e := lru[0];
      lru := lru[1..];
      free := free + Cost(e);
    }

    /** Adds the newest entry; if there are too many, the oldest goes. */
    method Push(e: Entry)
      modifies this
      ensures |old(lru)| < maxEntries ==> lru == old(lru) + [e] && free == old(free)
      ensures |old(lru)| >= maxEntries ==>
                lru == (old(lru) + [e])[1..] && free == old(free) + Cost((old(lru) + [e])[0])
    {
      lru := lru + [e];
      if |lru| > maxEntries {
        var _ := RemoveOldest();
      }
    }

    /**
     Adds a blob, unless it is too large or already there.  The oldest entries make
     room, no more of them than needed, and a largest of their buffers is returned.
     `n` is the number of entries that had to go; none goes for lack of entries.
     */
    method Add(id: Id, blob: Buffer) returns (reuse: Option<Buffer>, ghost n: nat)
      requires Valid()
      modifies this
      ensures Valid()
      ensures var e := Entry(id, blob);
              if Cost(e) > size || HasId(old(lru), id) then lru == old(lru) && n == 0
              else n <= |old(lru)| && lru == old(lru)[n..] + [e]
                   && (n > 0 ==> Total(old(lru)[n - 1..]) + Cost(e) > size)
      ensures n <= |old(lru)| && Largest(old(lru)[..n], reuse)
      ensures forall k :: 0 <= k < n ==> !HasId(lru, old(lru)[k].id)
    {
      hide Total;
      reuse, n := None, 0;
      var e := Entry(id, blob);
      var cost := Cost(e);
      if cost > size {
        return;
      }
      var contained := Contains(id);
      if contained {
        return;
      }
      ghost var was := lru;
      while cost > free
        invariant n <= |was| && lru == was[n..] && free + Total(lru) == size && 0 <= free
        invariant Largest(was[..n], reuse)
        invariant n > 0 ==> Total(was[n - 1..]) + cost > size
        decreases |lru|
      {
        NotEmpty(lru);
        ghost var bytes := Total(lru);
        TotalStep(lru);
        var out := RemoveOldest();
        var b := out.blob;
        LargestStep(was[..n], reuse, out);
        if b.cap > (if reuse.Some? then reuse.value.cap else 0) {
          reuse := Some(b);
        }
        assert was[..n + 1] == was[..n] + [out];
        n := n + 1;
      }
      TotalConcat(lru, [e]);
      TotalSingle(e);
      TotalBounds(lru + [e], size);
      Push(e);
      free := free - cost;
    }

    /** Looks a blob up; what is found becomes the most recently used. */
    method Get(id: Id) returns (blob: Option<Buffer>)
      requires Valid()
      modifies this
      ensures Valid() && free == old(free)
      ensures blob.None? ==> !HasId(old(lru), id) && lru == old(lru)
      ensures blob.Some? ==> exists k :: Used(old(lru), k, Entry(id, blob.value), lru)
    {
      hide Total;
      blob := None;
      for k := 0 to |lru|
        invariant lru == old(lru) && forall j :: 0 <= j < k ==> lru[j].id != id
      {
        if lru[k].id == id {
          blob := Some(lru[k].blob);
          TotalMoved(lru, k);
          lru := lru[..k] + lru[k + 1..] + [lru[k]];
          assert Used(old(lru), k, Entry(id, blob.value), lru);
          return;
        }
      }
    }

    method Contains(id: Id) returns (found: bool)
      ensures found <==> HasId(lru, id)
    {
      for i := 0 to |lru|
        invariant forall j :: 0 <= j < i ==> lru[j].id != id
      {
        if lru[i].id == id {
          return true;
        }
      }
      found := false;
    }
  }

  /** The k-th entry has moved to the end. */
  ghost predicate Used(entries: seq<Entry>, k: nat, e: Entry, entries1: seq<Entry>) {
    k < |entries| && entries[k] == e && entries1 == entries[..k] + entries[k + 1..] + [e]
  }

  lemma TotalMoved(entries: seq<Entry>, k: nat)
    requires k < |entries|
    ensures Total(entries[..k] + entries[k + 1..] + [entries[k]]) == Total(entries)
  {
    hide Total;
    assert entries == entries[..k] + ([entries[k]] + entries[k + 1..]);
    TotalConcat(entries[..k], [entries[k]] + entries[k + 1..]);
    TotalConcat([entries[k]], entries[k + 1..]);
    TotalConcat(entries[..k] + entries[k + 1..], [entries[k]]);
    TotalConcat(entries[..k], entries[k + 1..]);
  }

  lemma NotEmpty(entries: seq<Entry>)
    ensures Total(entries) > 0 ==> entries != []
  {
  }

  lemma TotalStep(entries: seq<Entry>)
    requires entries != []
    ensures Total(entries) == Cost(entries[0]) + Total(entries[1..])
  {
  }

  lemma TotalSingle(e: Entry)
    ensures Total([e]) == Cost(e)
  {
    assert [e][1..] == [];
  }

  lemma LargestStep(evicted: seq<Entry>, reuse: Option<Buffer>, out: Entry)
    requires Largest(evicted, reuse)
    ensures Largest(evicted + [out],
                    if out.blob.cap > (if reuse.Some? then reuse.value.cap else 0) then Some(out.blob) else reuse)
  {
    var all := evicted + [out];
    assert all[|evicted|] == out;
    assert forall k :: 0 <= k < |evicted| ==> all[k] == evicted[k];
    if reuse.Some? {
      var k :| 0 <= k < |evicted| && evicted[k].blob == reuse.value;
      assert all[k].blob == reuse.value;
    }
  }
}
