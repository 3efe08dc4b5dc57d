/**
 The master index: the list of indexes of a repository, the first of which is
 final and absorbs the others once they have been saved, and the handles that
 are on their way into some pack.
 */
module MasterIndexes {
  import opened Blobs
  import opened IndexMaps
  import opened PackLists
  import opened Indexes

  // ---------------------------------------------------------------- views

  /** The value of one index. */
  datatype Snapshot = Snapshot(final: bool, invalid: seq<PackedBlob>, data: seq<PackedBlob>, tree: seq<PackedBlob>,
                               ids: seq<Id>)
  {
    function Of(t: BlobType): seq<PackedBlob> {
      match t
      case InvalidBlob => invalid
      case DataBlob => data
      case TreeBlob => tree
    }
  }

  /** Everything a list of indexes knows about a handle. */
  ghost function LookedUp(view: seq<Snapshot>, bh: BlobHandle): multiset<PackedBlob> {
    if view == [] then multiset{}
    else LookedUp(view[..|view| - 1], bh) + multiset(WithHandle(view[|view| - 1].Of(bh.tpe), bh))
  }

  ghost function NonFinal(view: seq<Snapshot>): seq<Snapshot> {
    if view == [] then []
    else if view[|view| - 1].final then NonFinal(view[..|view| - 1])
    else NonFinal(view[..|view| - 1]) + [view[|view| - 1]]
  }

  /** The blobs of one type in the final indexes of a list. */
  ghost function FinalContent(view: seq<Snapshot>, t: BlobType): seq<PackedBlob> {
    if view == [] then []
    else if view[|view| - 1].final then FinalContent(view[..|view| - 1], t) + view[|view| - 1].Of(t)
    else FinalContent(view[..|view| - 1], t)
  }

  lemma {:induction false} LookedUpMember(view: seq<Snapshot>, bh: BlobHandle, pb: PackedBlob)
    ensures pb in LookedUp(view, bh) <==>
            pb.blob.handle == bh && exists i :: 0 <= i < |view| && pb in view[i].Of(bh.tpe)
  {
    if view != [] {
      var last := |view| - 1;
      LookedUpMember(view[..last], bh, pb);
      WithHandleMember(view[last].Of(bh.tpe), bh, pb);
      assert pb in WithHandle(view[last].Of(bh.tpe), bh) <==> pb in multiset(WithHandle(view[last].Of(bh.tpe), bh));
      if pb in view[last].Of(bh.tpe) { assert 0 <= last < |view|; }
      forall i | 0 <= i < |view| && pb in view[i].Of(bh.tpe)
        ensures i == last || exists j :: 0 <= j < |view[..last]| && pb in view[..last][j].Of(bh.tpe)
      {
        if i < last { assert view[..last][i] == view[i]; }
      }
    }
  }

  lemma {:induction false} FinalContentMember(view: seq<Snapshot>, t: BlobType, pb: PackedBlob)
    ensures pb in FinalContent(view, t) <==> exists i :: 0 <= i < |view| && view[i].final && pb in view[i].Of(t)
  {
    if view != [] {
      var last := |view| - 1;
      FinalContentMember(view[..last], t, pb);
      forall i | 0 <= i < |view| && view[i].final && pb in view[i].Of(t)
        ensures i == last || exists j :: 0 <= j < |view[..last]| && view[..last][j].final && pb in view[..last][j].Of(t)
      {
        if i < last { assert view[..last][i] == view[i]; }
      }
    }
  }

  lemma {:induction false} NonFinalMember(view: seq<Snapshot>, s: Snapshot)
    ensures s in NonFinal(view) <==> s in view && !s.final
  {
    if view != [] {
      NonFinalMember(view[..|view| - 1], s);
      assert view == view[..|view| - 1] + [view[|view| - 1]];
    }
  }

  /** The outcome of merging the final indexes of a list into its first. */
  ghost predicate MergedView(before: seq<Snapshot>, after: seq<Snapshot>) {
    && before != [] && after != [] && before[0].final && after[0].final
    && after[1..] == NonFinal(before[1..])
    && (forall t :: MergesTo(before[0].Of(t), FinalContent(before[1..], t), after[0].Of(t)))
  }

  lemma MergesToMember(base: seq<PackedBlob>, more: seq<PackedBlob>, result: seq<PackedBlob>, pb: PackedBlob)
    requires MergesTo(base, more, result)
    ensures pb in result <==> pb in base || pb in more
  {
    assert pb in result <==> multiset(result)[pb] > 0;
    assert pb in base <==> multiset(base)[pb] > 0;
  }

  /** Merging neither loses nor invents anything a lookup can find. */
  lemma MergeKeepsLookups(before: seq<Snapshot>, after: seq<Snapshot>, bh: BlobHandle, pb: PackedBlob)
    requires MergedView(before, after)
    ensures pb in LookedUp(after, bh) <==> pb in LookedUp(before, bh)
  {
    var t := bh.tpe;
    LookedUpMember(before, bh, pb);
    LookedUpMember(after, bh, pb);
    MergesToMember(before[0].Of(t), FinalContent(before[1..], t), after[0].Of(t), pb);
    FinalContentMember(before[1..], t, pb);
    forall i | 0 <= i < |before| && pb in before[i].Of(t)
      ensures exists j :: 0 <= j < |after| && pb in after[j].Of(t)
    {
      if i > 0 {
        assert before[1..][i - 1] == before[i];
        if !before[i].final {
          NonFinalMember(before[1..], before[i]);
          var j :| 0 <= j < |after[1..]| && after[1..][j] == before[i];
          assert after[j + 1] == before[i];
        }
      }
    }
    forall j | 0 <= j < |after| && pb in after[j].Of(t)
      ensures exists i :: 0 <= i < |before| && pb in before[i].Of(t)
    {
      if j > 0 {
        assert after[1..][j - 1] == after[j];
        NonFinalMember(before[1..], after[j]);
        var i :| 0 <= i < |before[1..]| && before[1..][i] == after[j];
        assert before[i + 1] == after[j];
      } else if pb in FinalContent(before[1..], t) {
        var i :| 0 <= i < |before[1..]| && before[1..][i].final && pb in before[1..][i].Of(t);
        assert before[i + 1] == before[1..][i];
      }
    }
  }

  /** Merging one more index into the result of merging some others. */
  lemma MergesToChain(a: seq<PackedBlob>, m: seq<PackedBlob>, b: seq<PackedBlob>, n: seq<PackedBlob>,
                      c: seq<PackedBlob>)
    requires MergesTo(a, m, b) && MergesTo(b, n, c)
    ensures MergesTo(a, m + n, c)
  {
    forall pb ensures multiset(c)[pb] == if pb in a then multiset(a)[pb] else if pb in m + n then 1 else 0 {
      assert pb in b <==> multiset(b)[pb] > 0;
    }
  }

  // ---------------------------------------------------------------- the master index

  /** The index has the given value. */
  ghost predicate Matches(s: Snapshot, x: Index)
    reads x, x.Repr
  {
    && x.Valid() && s.final == x.final && s.ids == x.ids
    && s.invalid == x.Content(InvalidBlob) && s.data == x.Content(DataBlob) && s.tree == x.Content(TreeBlob)
  }

  class MasterIndex {
    const sum64: Id -> nat
    var idx: seq<Index>
    var pendingBlobs: set<BlobHandle>

    ghost var view: seq<Snapshot>
    ghost var Repr: set<object>

    ghost predicate Valid()
      reads this, Repr
      ensures Valid() ==> this in Repr && idx != [] && |view| == |idx|
    {
      && this in Repr && |view| == |idx|
      && (forall i :: 0 <= i < |idx| ==> idx[i] in Repr && idx[i].Repr <= Repr && this !in idx[i].Repr)
      && (forall i, j :: 0 <= i < j < |idx| ==> idx[i].Repr !! idx[j].Repr)
      && (forall i :: 0 <= i < |idx| ==> Matches(view[i], idx[i]))
      && idx != [] && view[0].final
    }

    constructor (sum64: Id -> nat)
      ensures Valid() && fresh(Repr)
      ensures view == [Snapshot(true, [], [], [], [])] && pendingBlobs == {}
    {
      hide Index.Valid;
      hide Index.Content;
      var first := new Index(sum64);
      first.Finalize();
      view := [Snapshot(true, [], [], [], [])];
      this.sum64 := sum64;
      idx := [first];
      pendingBlobs := {};
      Repr := {this} + first.Repr;
    }

    /** What is known about the i-th index. */
    lemma At(i: nat)
      requires Valid() && i < |idx|
      ensures |view| == |idx| && idx[i].Valid() && view[i].final == idx[i].final && view[i].ids == idx[i].ids
      ensures forall t :: view[i].Of(t) == idx[i].Content(t)
    {
      hide Index.Valid;
      hide Index.Content;
    }

    /** All locations of a blob, over all indexes. */
    method Lookup(bh: BlobHandle) returns (pbs: seq<PackedBlob>)
      requires Valid()
      ensures multiset(pbs) == LookedUp(view, bh)
    {
      hide Valid;
      hide LookedUp;
      hide Snapshot.Of;
      hide Index.Content;
      LookedUpStep(view, bh);
      pbs := [];
      for i := 0 to |idx|
        invariant multiset(pbs) == LookedUp(view[..i], bh)
      {
        At(i);
        var more := idx[i].Lookup(bh, pbs);
        assert more == pbs + more[|pbs|..];
        pbs := more;
      }
      assert view[..|idx|] == view;
    }

    /** The size of a blob, by the first index that knows it. */
    method LookupSize(bh: BlobHandle) returns (size: Option<nat>)
      requires Valid()
      ensures size.None? <==> LookedUp(view, bh) == multiset{}
      ensures size.Some? ==> SizeAmong(size.value, LookedUp(view, bh))
    {
      hide Valid;
      hide LookedUp;
      hide Snapshot.Of;
      hide Index.Content;
      hide PlaintextLength;
      LookedUpStep(view, bh);
      for i := 0 to |idx|
        invariant LookedUp(view[..i], bh) == multiset{}
      {
        At(i);
        size := idx[i].LookupSize(bh);
        if size.Some? {
          LookedUpPrefix(view, bh, i + 1);
          assert LookedUp(view[..i + 1], bh) == multiset(WithHandle(view[i].Of(bh.tpe), bh));
          return;
        }
      }
      assert view[..|idx|] == view;
      size := None;
    }

    /** Whether some index knows the handle. */
    method Indexed(bh: BlobHandle) returns (has: bool)
      requires Valid()
      ensures has <==> LookedUp(view, bh) != multiset{}
    {
      hide Valid;
      hide LookedUp;
      hide Snapshot.Of;
      hide Index.Content;
      LookedUpStep(view, bh);
      for i := 0 to |idx|
        invariant LookedUp(view[..i], bh) == multiset{}
      {
        At(i);
        var h := idx[i].Has(bh);
        if h {
          LookedUpPrefix(view, bh, i + 1);
          assert WithHandle(view[i].Of(bh.tpe), bh)[0] in LookedUp(view[..i + 1], bh);
          return true;
        }
      }
      assert view[..|idx|] == view;
      has := false;
    }

    /** Whether the handle is indexed or on its way into a pack. */
    method Has(bh: BlobHandle) returns (has: bool)
      requires Valid()
      ensures has <==> bh in pendingBlobs || LookedUp(view, bh) != multiset{}
    {
      if bh in pendingBlobs {
        return true;
      }
      has := Indexed(bh);
    }

    /** Claims a handle for saving; fails exactly if it is known already. */
    method AddPending(bh: BlobHandle) returns (added: bool)
      requires Valid()
      modifies this`pendingBlobs
      ensures Valid()
      ensures added <==> bh !in old(pendingBlobs) && LookedUp(old(view), bh) == multiset{}
      ensures pendingBlobs == old(pendingBlobs) + if added then {bh} else {}
    {
      hide Matches;
      if bh in pendingBlobs {
        return false;
      }
      var known := Indexed(bh);
      if known {
        return false;
      }
      pendingBlobs := pendingBlobs + {bh};
      added := true;
    }

    /** Stores a pack in the i-th index. */
    method StoreInto(i: nat, id: Id, blobs: seq<Blob>)
      requires Valid() && i < |idx| && !view[i].final && AllFit(blobs)
      modifies Repr
      ensures Valid() && fresh(Repr - old(Repr))
      ensures view == old(view)[i := Extended(old(view)[i], id, blobs)] && pendingBlobs == old(pendingBlobs)
      ensures idx == old(idx)
    {
      hide Index.Valid;
      hide Index.Content;
      hide OfType;
      idx[i].StorePack(id, blobs);
      view := view[i := Extended(view[i], id, blobs)];
      Repr := Repr + idx[i].Repr;
    }

    /** Adds an index at the end of the list. */
    method Insert(x: Index, ghost s: Snapshot)
      requires Valid() && Matches(s, x) && x.Repr !! Repr
      modifies this`idx, this`view, this`Repr
      ensures Valid() && Repr == old(Repr) + x.Repr
      ensures view == old(view) + [s] && idx == old(idx) + [x]
    {
      hide Index.Valid;
      hide Index.Content;
      idx := idx + [x];
      view := view + [s];
      Repr := Repr + x.Repr;
    }

    /** Records a written pack in the first index that is still open, or in a new one. */
    method StorePack(id: Id, blobs: seq<Blob>)
      requires Valid() && AllFit(blobs)
      modifies Repr
      ensures Valid() && fresh(Repr - old(Repr))
      ensures view == Stored(old(view), id, blobs)
      ensures pendingBlobs == old(pendingBlobs) - HandlesOf(blobs)
    {
      hide Valid;
      hide Index.Valid;
      hide Index.Content;
      hide Stored;
      DropPending(blobs);
      for i := 0 to |idx|
        invariant Valid() && view == old(view) && Repr == old(Repr)
        invariant pendingBlobs == old(pendingBlobs) - HandlesOf(blobs)
        invariant forall j :: 0 <= j < i ==> view[j].final
      {
        At(i);
        if !idx[i].final {
          StoredOpen(view, i, id, blobs);
          StoreInto(i, id, blobs);
          return;
        }
      }
      StoredNew(view, id, blobs);
      var x := new Index(sum64);
      x.StorePack(id, blobs);
      Insert(x, Extended(EMPTY, id, blobs));
    }

    /** Closes the i-th index. */
    method FinalizeAt(i: nat)
      requires Valid() && i < |idx|
      modifies Repr
      ensures Valid() && Repr == old(Repr) && idx == old(idx) && pendingBlobs == old(pendingBlobs)
      ensures view == old(view)[i := old(view)[i].(final := true)]
    {
      hide Index.Valid;
      hide Index.Content;
      idx[i].Finalize();
      view := view[i := view[i].(final := true)];
    }

    /** Closes the open indexes that are full and returns them, in order, for saving.  `at` says where they are. */
    method FinalizeIndexes(full: nat -> bool) returns (list: seq<Index>, ghost at: seq<nat>)
      requires Valid()
      modifies Repr
      ensures Valid() && Repr == old(Repr) && idx == old(idx) && pendingBlobs == old(pendingBlobs)
      ensures |view| == |old(view)|
      ensures forall j :: 0 <= j < |view| ==> view[j] == old(view)[j].(final := old(view)[j].final || full(j))
      ensures Positioned(at, |idx|) && |list| == |at| && forall k :: 0 <= k < |list| ==> list[k] == idx[at[k]]
      ensures forall j :: 0 <= j < |idx| ==> (j in at <==> !old(view)[j].final && full(j))
    {
      hide Valid;
      hide Index.Valid;
      hide Index.Content;
      list, at := [], [];
      for i := 0 to |idx|
        invariant Valid() && Repr == old(Repr) && idx == old(idx) && pendingBlobs == old(pendingBlobs)
        invariant |view| == |old(view)|
        invariant forall j :: 0 <= j < i ==> view[j] == old(view)[j].(final := old(view)[j].final || full(j))
        invariant forall j :: i <= j < |view| ==> view[j] == old(view)[j]
        invariant Positioned(at, i) && |list| == |at| && forall k :: 0 <= k < |list| ==> list[k] == idx[at[k]]
        invariant forall j :: 0 <= j < i ==> (j in at <==> !old(view)[j].final && full(j))
      {
        At(i);
        if !idx[i].final && full(i) {
          FinalizeAt(i);
          list, at := list + [idx[i]], at + [i];
        }
      }
    }

    /** Merges the i-th index into the first. */
    method Absorb(i: nat)
      requires Valid() && 1 <= i < |idx| && view[i].final
      modifies Repr
      ensures Valid() && fresh(Repr - old(Repr)) && idx == old(idx) && pendingBlobs == old(pendingBlobs)
      ensures |view| == |old(view)| && view[0].final && view[1..] == old(view)[1..]
      ensures view[0].ids == old(view)[0].ids + old(view)[i].ids
      ensures forall t :: MergesTo(old(view)[0].Of(t), old(view)[i].Of(t), view[0].Of(t))
    {
      hide Index.Valid;
      hide Index.Content;
      hide MergesTo;
      var x := idx[0];
      var ok := x.Merge(idx[i]);
      ghost var s := Snapshot(x.final, x.Content(InvalidBlob), x.Content(DataBlob), x.Content(TreeBlob), x.ids);
      view := view[0 := s];
      Repr := Repr + x.Repr;
    }

    /** Keeps only the indexes at the given positions. */
    method Select(xs: seq<Index>, ghost from: seq<nat>)
      requires Valid() && Positioned(from, |idx|) && from != [] && from[0] == 0
      requires |xs| == |from| && forall k :: 0 <= k < |xs| ==> xs[k] == idx[from[k]]
      modifies this`idx, this`view
      ensures Valid() && idx == xs && view == Selected(old(view), from)
    {
      hide Index.Valid;
      hide Index.Content;
      hide Matches;
      idx := xs;
      view := Selected(view, from);
    }

    /** The first w members of the compacted list. */
    static method Front(slice: array<Index?>, w: nat, ghost xs: seq<Index>, ghost from: seq<nat>)
      returns (kept: seq<Index>)
      requires Positioned(from, |xs|) && w == |from| <= slice.Length
      requires forall k :: 0 <= k < w ==> slice[k] == xs[from[k]]
      ensures |kept| == w && forall k :: 0 <= k < w ==> kept[k] == xs[from[k]]
    {
      kept := seq(w, k requires 0 <= k < w <= slice.Length && slice[k] != null reads slice => slice[k]);
    }

    /**
     Merges all final indexes into the first, compacting the list in place: the
     open indexes move to the front, in order.  `from` says where they were.
     */
    method MergeFinalIndexes() returns (ghost from: seq<nat>)
      requires Valid()
      modifies Repr
      ensures Valid() && fresh(Repr - old(Repr)) && pendingBlobs == old(pendingBlobs)
      ensures MergedView(old(view), view)
      ensures Positioned(from, |old(idx)|) && |from| == |idx| && from[0] == 0
      ensures forall k :: 0 <= k < |idx| ==> idx[k] == old(idx)[from[k]]
      ensures view[0].ids == old(view)[0].ids + FinalIds(old(view)[1..])
    {
      hide Valid;
      hide Index.Valid;
      hide Index.Content;
      hide Matches;
      hide MergesTo;
      hide NonFinal;
      hide FinalContent;
      hide FinalIds;
      var xs := idx;
      var slice: array<Index?> := new Index?[|xs|](j requires 0 <= j < |xs| => xs[j]);
      var w := 1;
      from := [0];
      FirstFinal();
      MergeStart(view);
      for i := 1 to |xs|
        invariant Valid() && fresh(Repr - old(Repr)) && pendingBlobs == old(pendingBlobs) && idx == old(idx) == xs
        invariant slice !in Repr && slice.Length == |xs|
        invariant MergeProgress(old(view), view, i, from)
        invariant w == |from| <= i
        invariant forall j :: i <= j < |xs| ==> slice[j] == xs[j]
        invariant forall k :: 0 <= k < w ==> slice[k] == xs[from[k]]
      {
        At(i);
        var x := slice[i];
        slice[i] := null;
        if !x.final {
          MergeSkip(old(view), view, i, from);
          slice[w] := x;
          w := w + 1;
          from := from + [i];
        } else {
          ghost var before := view;
          Absorb(i);
          MergeAbsorb(old(view), before, view, i, from);
        }
      }
      var kept := Front(slice, w, xs, from);
      MergeDone(old(view), view, from);
      Select(kept, from);
    }

    lemma FirstFinal()
      requires Valid()
      ensures view[0].final
    {
    }

    method DropPending(blobs: seq<Blob>)
      requires Valid()
      modifies this`pendingBlobs
      ensures Valid() && pendingBlobs == old(pendingBlobs) - HandlesOf(blobs)
    {
      hide Index.Valid;
      hide Index.Content;
      hide Matches;
      for k := 0 to |blobs|
        invariant Valid() && pendingBlobs == old(pendingBlobs) - HandlesOf(blobs[..k])
      {
        assert HandlesOf(blobs[..k + 1]) == HandlesOf(blobs[..k]) + {blobs[k].handle} by {
          assert blobs[..k + 1] == blobs[..k] + [blobs[k]];
        }
        pendingBlobs := pendingBlobs - {blobs[k].handle};
      }
      assert blobs[..|blobs|] == blobs;
    }
  }

  /** Positions in increasing order. */
  ghost predicate Positioned(from: seq<nat>, n: nat) {
    && (forall k :: 0 <= k < |from| ==> from[k] < n)
    && (forall j, k :: 0 <= j < k < |from| ==> from[j] < from[k])
  }

  ghost function Selected(view: seq<Snapshot>, from: seq<nat>): seq<Snapshot>
    requires Positioned(from, |view|)
  {
    seq(|from|, k requires 0 <= k < |from| => view[from[k]])
  }

  /** The identifiers of the final indexes of a list. */
  ghost function FinalIds(view: seq<Snapshot>): seq<Id> {
    if view == [] then []
    else if view[|view| - 1].final then FinalIds(view[..|view| - 1]) + view[|view| - 1].ids
    else FinalIds(view[..|view| - 1])
  }

  /** The first i indexes have been dealt with; those at `from` stay. */
  ghost predicate MergeProgress(before: seq<Snapshot>, now: seq<Snapshot>, i: nat, from: seq<nat>) {
    && |now| == |before| && 1 <= i <= |before|
    && before[0].final && now[0].final && now[1..] == before[1..]
    && Positioned(from, i) && from != [] && from[0] == 0
    && Selected(before, from)[1..] == NonFinal(before[1..i])
    && now[0].ids == before[0].ids + FinalIds(before[1..i])
    && (forall t :: MergesTo(before[0].Of(t), FinalContent(before[1..i], t), now[0].Of(t)))
  }

  lemma MergeStart(view: seq<Snapshot>)
    requires view != [] && view[0].final
    ensures MergeProgress(view, view, 1, [0])
  {
    assert view[1..1] == [];
    forall t ensures MergesTo(view[0].Of(t), [], view[0].Of(t)) {
      forall pb ensures multiset(view[0].Of(t))[pb] == if pb in view[0].Of(t) then multiset(view[0].Of(t))[pb] else 0 {
      }
    }
  }

  lemma MergeSkip(before: seq<Snapshot>, now: seq<Snapshot>, i: nat, from: seq<nat>)
    requires MergeProgress(before, now, i, from) && i < |before| && !now[i].final
    ensures MergeProgress(before, now, i + 1, from + [i])
  {
    assert now[i] == now[1..][i - 1] == before[i];
    assert before[1..i + 1][..i - 1] == before[1..i];
    assert Selected(before, from + [i])[1..] == Selected(before, from)[1..] + [before[i]];
  }

  lemma MergeAbsorb(before: seq<Snapshot>, now: seq<Snapshot>, next: seq<Snapshot>, i: nat, from: seq<nat>)
    requires MergeProgress(before, now, i, from) && i < |before| && now[i].final
    requires |next| == |now| && next[0].final && next[1..] == now[1..]
    requires next[0].ids == now[0].ids + now[i].ids
    requires forall t :: MergesTo(now[0].Of(t), now[i].Of(t), next[0].Of(t))
    ensures MergeProgress(before, next, i + 1, from)
  {
    assert now[i] == now[1..][i - 1] == before[i];
    assert before[1..i + 1][..i - 1] == before[1..i];
    forall t ensures MergesTo(before[0].Of(t), FinalContent(before[1..i + 1], t), next[0].Of(t)) {
      MergesToChain(before[0].Of(t), FinalContent(before[1..i], t), now[0].Of(t), now[i].Of(t), next[0].Of(t));
    }
  }

  lemma MergeDone(before: seq<Snapshot>, now: seq<Snapshot>, from: seq<nat>)
    requires MergeProgress(before, now, |before|, from)
    ensures Positioned(from, |now|) && MergedView(before, Selected(now, from))
    ensures Selected(now, from)[0] == now[0] && now[0].ids == before[0].ids + FinalIds(before[1..])
  {
    assert before[1..|before|] == before[1..];
    forall k | 1 <= k < |from| ensures now[from[k]] == before[from[k]] {
      assert now[1..][from[k] - 1] == before[1..][from[k] - 1];
    }
    assert Selected(now, from)[1..] == Selected(before, from)[1..];
  }

  const EMPTY: Snapshot := Snapshot(false, [], [], [], [])

  function HandlesOf(blobs: seq<Blob>): set<BlobHandle> {
    set b | b in blobs :: b.handle
  }

  /** The value of an index after storing a pack in it. */
  ghost function Extended(s: Snapshot, id: Id, blobs: seq<Blob>): Snapshot {
    s.(invalid := s.invalid + OfType(blobs, InvalidBlob, id),
       data := s.data + OfType(blobs, DataBlob, id),
       tree := s.tree + OfType(blobs, TreeBlob, id))
  }

  /** The indexes after storing a pack: the first open one takes it, or a new one. */
  ghost function Stored(view: seq<Snapshot>, id: Id, blobs: seq<Blob>): seq<Snapshot> {
    if view == [] then [Extended(EMPTY, id, blobs)]
    else if !view[0].final then [Extended(view[0], id, blobs)] + view[1..]
    else [view[0]] + Stored(view[1..], id, blobs)
  }

  lemma {:induction false} StoredOpen(view: seq<Snapshot>, i: nat, id: Id, blobs: seq<Blob>)
    requires i < |view| && !view[i].final && forall j :: 0 <= j < i ==> view[j].final
    ensures Stored(view, id, blobs) == view[i := Extended(view[i], id, blobs)]
  {
    if i > 0 {
      assert forall j :: 0 <= j < i - 1 ==> view[1..][j] == view[j + 1];
      StoredOpen(view[1..], i - 1, id, blobs);
    }
  }

  lemma {:induction false} StoredNew(view: seq<Snapshot>, id: Id, blobs: seq<Blob>)
    requires forall j :: 0 <= j < |view| ==> view[j].final
    ensures Stored(view, id, blobs) == view + [Extended(EMPTY, id, blobs)]
  {
    if view != [] {
      StoredNew(view[1..], id, blobs);
    }
  }

  lemma LookedUpStep(view: seq<Snapshot>, bh: BlobHandle)
    ensures LookedUp([], bh) == multiset{}
    ensures forall i :: 0 <= i < |view| ==>
              LookedUp(view[..i + 1], bh) == LookedUp(view[..i], bh) + multiset(WithHandle(view[i].Of(bh.tpe), bh))
  {
    forall i | 0 <= i < |view|
      ensures LookedUp(view[..i + 1], bh) == LookedUp(view[..i], bh) + multiset(WithHandle(view[i].Of(bh.tpe), bh))
    {
      assert view[..i + 1][..i] == view[..i];
    }
  }

  lemma {:induction false} LookedUpPrefix(view: seq<Snapshot>, bh: BlobHandle, n: nat)
    requires n <= |view|
    ensures LookedUp(view[..n], bh) <= LookedUp(view, bh)
    decreases |view| - n
  {
    if n == |view| {
      assert view[..n] == view;
    } else {
      LookedUpPrefix(view, bh, n + 1);
      assert view[..n + 1][..n] == view[..n];
    }
  }
}
