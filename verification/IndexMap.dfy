/**
 The chained hash table behind every index: buckets of singly linked entries,
 grown by relinking the entries in place, with new entries taken from a free
 list that is refilled in batches.

 The abstract value of a table is `log`, the records in the order in which
 they were added.  Iteration order is not specified, so lookups are related to
 `log` through multisets.
 */
module IndexMaps {
  import opened Blobs

  const GROWTH_FACTOR: nat := 2
  const MAX_LOAD: nat := 4
  const INITIAL_BUCKETS: nat := 64
  const ENTRY_ALLOC_BATCH: nat := 256

  /** The payload of one entry. */
  datatype Record = Record(id: Id, packIndex: int, offset: uint32, length: uint32)

  // ---------------------------------------------------------------- slots

  /** Bitwise conjunction of two unsigned words. */
  function BitAnd(x: nat, y: nat): nat {
    if x == 0 || y == 0 then 0
    else (x % 2) * (y % 2) + 2 * BitAnd(x / 2, y / 2)
  }

  function Pow2(k: nat): nat {
    if k == 0 then 1 else 2 * Pow2(k - 1)
  }

  lemma {:induction false} BitAndBound(x: nat, y: nat)
    ensures BitAnd(x, y) <= y
  {
    if x != 0 && y != 0 {
      BitAndBound(x / 2, y / 2);
      var c, d := x % 2, y % 2;
      assert c == 0 || c == 1;
      assert c * d <= d;
    }
  }

  /** The bucket of an identifier whose 64-bit hash is `sum`, in a table of n buckets. */
  function Slot(sum: nat, n: nat): nat
    requires n > 0
  {
    BitAnd(sum, n - 1)
  }

  /** A table size the growth policy can reach. */
  ghost predicate IsTableSize(n: nat) {
    exists k: nat :: n == INITIAL_BUCKETS * Pow2(k)
  }

  lemma SlotInRange(sum: nat, n: nat)
    requires n > 0
    ensures Slot(sum, n) < n
  {
    BitAndBound(sum, n - 1);
  }

  lemma TableSizeDoubles(n: nat)
    requires IsTableSize(n)
    ensures IsTableSize(GROWTH_FACTOR * n)
  {
    var k: nat :| n == INITIAL_BUCKETS * Pow2(k);
    assert GROWTH_FACTOR * n == INITIAL_BUCKETS * Pow2(k + 1);
  }

  // ---------------------------------------------------------------- logs

  /** The records with the given identifier, in order. */
  function WithId(log: seq<Record>, id: Id): seq<Record> {
    Filter(log, (r: Record) => r.id == id)
  }

  function Filter(log: seq<Record>, keep: Record -> bool): seq<Record> {
    if log == [] then []
    else
      var rest := Filter(log[..|log| - 1], keep);
      var r := log[|log| - 1];
      if keep(r) then rest + [r] else rest
  }

  lemma {:induction false} FilterAll(log: seq<Record>, keep: Record -> bool)
    requires forall r :: keep(r)
    ensures Filter(log, keep) == log
  {
    if log != [] {
      FilterAll(log[..|log| - 1], keep);
      assert log[..|log| - 1] + [log[|log| - 1]] == log;
    }
  }

  /**
   `serials` lists, without repetition, exactly the positions of `log` that
   satisfy `keep`.
   */
  ghost predicate Enumerates(serials: seq<int>, log: seq<Record>, keep: Record -> bool) {
    && (forall i :: 0 <= i < |serials| ==> 0 <= serials[i] < |log| && keep(log[serials[i]]))
    && (forall i, j :: 0 <= i < j < |serials| ==> serials[i] != serials[j])
    && (forall k :: 0 <= k < |log| && keep(log[k]) ==> k in serials)
  }

  ghost predicate InRange(serials: seq<int>, n: nat) {
    forall i :: 0 <= i < |serials| ==> 0 <= serials[i] < n
  }

  ghost function Pick(log: seq<Record>, serials: seq<int>): seq<Record>
    requires InRange(serials, |log|)
  {
    seq(|serials|, i requires 0 <= i < |serials| => log[serials[i]])
  }

  /** Dropping the position of the last record leaves an enumeration of the rest. */
  lemma EnumerationShrinks(serials: seq<int>, log: seq<Record>, keep: Record -> bool, p: nat)
    requires Enumerates(serials, log, keep) && log != []
    requires p < |serials| && serials[p] == |log| - 1
    ensures Enumerates(serials[..p] + serials[p + 1..], log[..|log| - 1], keep)
  {
    var fewer := serials[..p] + serials[p + 1..];
    forall k | 0 <= k < |log| - 1 && keep(log[k]) ensures k in fewer {
      var q :| 0 <= q < |serials| && serials[q] == k;
      assert fewer[if q < p then q else q - 1] == k;
    }
  }

  lemma PickRemoved(log: seq<Record>, serials: seq<int>, p: nat)
    requires InRange(serials, |log|) && p < |serials|
    ensures multiset(Pick(log, serials)) ==
            multiset(Pick(log, serials[..p] + serials[p + 1..])) + multiset{log[serials[p]]}
  {
    var picked := Pick(log, serials);
    assert Pick(log, serials[..p] + serials[p + 1..]) == picked[..p] + picked[p + 1..];
    assert picked == picked[..p] + [picked[p]] + picked[p + 1..];
  }

  /** Where the last record occurs in an enumeration that keeps it. */
  lemma LastPosition(serials: seq<int>, log: seq<Record>, keep: Record -> bool) returns (p: nat)
    requires Enumerates(serials, log, keep) && log != [] && keep(log[|log| - 1])
    ensures p < |serials| && serials[p] == |log| - 1
  {
    assert |log| - 1 in serials;
    p :| 0 <= p < |serials| && serials[p] == |log| - 1;
  }

  lemma EnumerationSkips(serials: seq<int>, log: seq<Record>, keep: Record -> bool)
    requires Enumerates(serials, log, keep)
    requires log != [] ==> !keep(log[|log| - 1])
    ensures log == [] ==> serials == []
    ensures log != [] ==> Enumerates(serials, log[..|log| - 1], keep)
  {
    assert |serials| > 0 ==> 0 <= serials[0] < |log|;
  }

  /** The records at the given positions are, up to order, the kept records. */
  ghost predicate Permutes(serials: seq<int>, log: seq<Record>, keep: Record -> bool) {
    InRange(serials, |log|) && multiset(Pick(log, serials)) == multiset(Filter(log, keep))
  }

  lemma PermutesKeep(serials: seq<int>, log: seq<Record>, keep: Record -> bool, p: nat)
    requires InRange(serials, |log|) && log != [] && keep(log[|log| - 1])
    requires p < |serials| && serials[p] == |log| - 1
    requires Permutes(serials[..p] + serials[p + 1..], log[..|log| - 1], keep)
    ensures Permutes(serials, log, keep)
  {
    var fewer := serials[..p] + serials[p + 1..];
    PickRemoved(log, serials, p);
    assert Pick(log[..|log| - 1], fewer) == Pick(log, fewer);
  }

  lemma PermutesSkip(serials: seq<int>, log: seq<Record>, keep: Record -> bool)
    requires log != [] && !keep(log[|log| - 1])
    requires Permutes(serials, log[..|log| - 1], keep)
    ensures Permutes(serials, log, keep)
  {
    assert Pick(log[..|log| - 1], serials) == Pick(log, serials);
  }

  /** Any enumeration of the kept positions yields the kept records, each once. */
  lemma {:induction false} EnumerationIsPermutation(serials: seq<int>, log: seq<Record>, keep: Record -> bool)
    requires Enumerates(serials, log, keep)
    ensures Permutes(serials, log, keep)
    decreases |log|
  {
    if log == [] {
      EnumerationSkips(serials, log, keep);
    } else if keep(log[|log| - 1]) {
      var p := LastPosition(serials, log, keep);
      EnumerationShrinks(serials, log, keep, p);
      EnumerationIsPermutation(serials[..p] + serials[p + 1..], log[..|log| - 1], keep);
      PermutesKeep(serials, log, keep, p);
    } else {
      EnumerationSkips(serials, log, keep);
      EnumerationIsPermutation(serials, log[..|log| - 1], keep);
      PermutesSkip(serials, log, keep);
    }
  }

  // ---------------------------------------------------------------- entries

  class Entry {
    var id: Id
    var next: Entry?
    var packIndex: int
    var offset: uint32
    var length: uint32

    constructor ()
      ensures next == null
    {
      id, next, packIndex, offset, length := NullId(), null, 0, 0, 0;
    }

    method Fill(id: Id, packIndex: int, offset: uint32, length: uint32)
      modifies this`id, this`packIndex, this`offset, this`length
      ensures Rec() == Record(id, packIndex, offset, length)
    {
      this.id, this.packIndex, this.offset, this.length := id, packIndex, offset, length;
    }

    function Rec(): Record
      reads this`id, this`packIndex, this`offset, this`length
    {
      Record(id, packIndex, offset, length)
    }
  }

  /**
   `s` is the list starting at `head`, written back to front: a list is pushed
   and popped at its head, so both change only the end of `s`.
   */
  ghost predicate IsChain(head: Entry?, s: seq<Entry>)
    reads s`next
  {
    && (if s == [] then head == null else head == s[|s| - 1] && s[0].next == null)
    && forall i {:trigger s[i].next} :: 1 <= i < |s| ==> s[i].next == s[i - 1]
  }

  /** Every bucket heads its chain, and all chained entries are among `owners`. */
  ghost predicate Linked(buckets: array<Entry?>, chains: seq<seq<Entry>>, owners: set<Entry>)
    reads buckets, owners`next
  {
    && |chains| == buckets.Length
    && (forall b, i :: 0 <= b < |chains| && 0 <= i < |chains[b]| ==> chains[b][i] in owners)
    && (forall b :: 0 <= b < |chains| ==> IsChain(buckets[b], chains[b]))
  }

  /** Entry k carries log record k. */
  ghost predicate Records(nodes: seq<Entry>, log: seq<Record>)
    reads nodes`id, nodes`packIndex, nodes`offset, nodes`length
  {
    && |nodes| == |log|
    && (forall k :: 0 <= k < |nodes| ==> nodes[k].Rec() == log[k])
  }

  lemma RecordsPush(nodes: seq<Entry>, log: seq<Record>, e: Entry, r: Record)
    requires Records(nodes, log) && e.Rec() == r
    ensures Records(nodes + [e], log + [r])
  {
  }

  /** The bucket of an entry, and its distance from the end of that bucket's chain. */
  datatype Place = Place(bucket: int, rank: int)

  /** `places` says where in `chains` each entry is; so no entry is in two places. */
  ghost predicate Placed(chains: seq<seq<Entry>>, places: map<Entry, Place>) {
    && (forall b, i :: 0 <= b < |chains| && 0 <= i < |chains[b]| ==>
          chains[b][i] in places && places[chains[b][i]] == Place(b, i))
    && (forall e :: e in places ==>
          var p := places[e];
          0 <= p.bucket < |chains| && 0 <= p.rank < |chains[p.bucket]| && chains[p.bucket][p.rank] == e)
  }

  /** `serials` numbers the entries in the order in which they were added. */
  ghost predicate Numbered(nodes: seq<Entry>, serials: map<Entry, int>) {
    && (forall k :: 0 <= k < |nodes| ==> nodes[k] in serials && serials[nodes[k]] == k)
    && (forall e :: e in serials ==> 0 <= serials[e] < |nodes| && nodes[serials[e]] == e)
  }

  /** Every placed entry is in the bucket that its record's identifier hashes to. */
  ghost predicate Filed(sum64: Id -> nat, n: nat, places: map<Entry, Place>, serials: map<Entry, int>,
                        log: seq<Record>)
  {
    forall e :: e in places ==>
      n > 0 && e in serials && 0 <= serials[e] < |log| &&
      places[e].bucket == Slot(sum64(log[serials[e]].id), n)
  }

  lemma FiledMore(sum64: Id -> nat, n: nat, places: map<Entry, Place>, serials: map<Entry, int>, log: seq<Record>,
                  h: nat, k: nat, e: Entry, r: Record)
    requires Filed(sum64, n, places, serials, log) && n > 0 && h == Slot(sum64(r.id), n) && e !in places
    ensures Filed(sum64, n, places[e := Place(h, k)], serials[e := |log|], log + [r])
  {
    hide Slot;
  }

  /** Adding an entry to a chain. */
  lemma PlacedPush(chains: seq<seq<Entry>>, places: map<Entry, Place>, h: nat, e: Entry)
    requires Placed(chains, places) && h < |chains| && e !in places
    ensures Placed(chains[h := chains[h] + [e]], places[e := Place(h, |chains[h]|)])
  {
    var chains' := chains[h := chains[h] + [e]];
    var places' := places[e := Place(h, |chains[h]|)];
    forall b, i | 0 <= b < |chains'| && 0 <= i < |chains'[b]|
      ensures chains'[b][i] in places' && places'[chains'[b][i]] == Place(b, i)
    {
      if b != h || i < |chains[h]| { assert chains'[b][i] == chains[b][i]; }
    }
  }

  /** Removing the head of a chain. */
  lemma PlacedPop(chains: seq<seq<Entry>>, places: map<Entry, Place>, b: nat, e: Entry)
    requires Placed(chains, places) && b < |chains| && chains[b] != [] && e == chains[b][|chains[b]| - 1]
    ensures Placed(chains[b := chains[b][..|chains[b]| - 1]], places - {e})
  {
    assert places[e] == Place(b, |chains[b]| - 1);
  }

  /** A table in the middle of growing: the chains still to be relinked and the new ones. */
  datatype Migration = Migration(todo: seq<seq<Entry>>, waiting: map<Entry, Place>,
                                 done: seq<seq<Entry>>, moved: map<Entry, Place>)

  ghost predicate Splits(waiting: map<Entry, Place>, moved: map<Entry, Place>, all: set<Entry>) {
    && (forall e :: e in all ==> e in waiting || e in moved)
    && (forall e :: e in waiting ==> e in all && e !in moved)
    && (forall e :: e in moved ==> e in all)
  }

  /** Every one of the `all` entries is either still in its old chain or filed in its new one. */
  ghost predicate Migrating(m: Migration, all: set<Entry>, sum64: Id -> nat, serials: map<Entry, int>,
                            log: seq<Record>)
  {
    && Placed(m.todo, m.waiting) && Placed(m.done, m.moved)
    && Filed(sum64, |m.done|, m.moved, serials, log)
    && Splits(m.waiting, m.moved, all)
  }

  lemma MigrationStart(chains: seq<seq<Entry>>, places: map<Entry, Place>, n: nat,
                       sum64: Id -> nat, serials: map<Entry, int>, log: seq<Record>)
    requires Placed(chains, places)
    ensures Migrating(Migration(chains, places, seq(n, _ => []), map[]), places.Keys, sum64, serials, log)
  {
  }

  /** Once every old chain is empty, everything has moved. */
  lemma MigrationEnd(m: Migration, all: set<Entry>, sum64: Id -> nat, serials: map<Entry, int>, log: seq<Record>)
    requires Migrating(m, all, sum64, serials, log)
    requires forall b :: 0 <= b < |m.todo| ==> m.todo[b] == []
    ensures m.moved.Keys == all
  {
    assert m.waiting.Keys == {};
  }

  /** Moving the head of old chain b to new chain h. */
  ghost function MoveHead(m: Migration, b: nat, h: nat): Migration
    requires b < |m.todo| && m.todo[b] != [] && h < |m.done|
  {
    var last := |m.todo[b]| - 1;
    var e := m.todo[b][last];
    Migration(m.todo[b := m.todo[b][..last]], m.waiting - {e},
              m.done[h := m.done[h] + [e]], m.moved[e := Place(h, |m.done[h]|)])
  }

  lemma MigrationStep(m: Migration, b: nat, h: nat, all: set<Entry>, sum64: Id -> nat, serials: map<Entry, int>,
                      log: seq<Record>)
    requires Migrating(m, all, sum64, serials, log)
    requires b < |m.todo| && m.todo[b] != [] && h < |m.done|
    requires var e := m.todo[b][|m.todo[b]| - 1];
             e in serials && 0 <= serials[e] < |log| && h == Slot(sum64(log[serials[e]].id), |m.done|)
    ensures Migrating(MoveHead(m, b, h), all, sum64, serials, log)
  {
    var e := m.todo[b][|m.todo[b]| - 1];
    var m' := MoveHead(m, b, h);
    assert e in m.waiting && e !in m.moved;
    assert Placed(m'.todo, m'.waiting) by { PlacedPop(m.todo, m.waiting, b, e); }
    assert Placed(m'.done, m'.moved) by { PlacedPush(m.done, m.moved, h, e); }
    assert Splits(m'.waiting, m'.moved, all);
    assert Filed(sum64, |m'.done|, m'.moved, serials, log);
  }

  /** Old chain b starts at `cur`; the later ones are still linked as they were. */
  ghost predicate Pending(olds: array<Entry?>, b: nat, cur: Entry?, todo: seq<seq<Entry>>, waiting: set<Entry>)
    reads olds, waiting`next
  {
    && |todo| == olds.Length
    && (forall j, i :: 0 <= j < |todo| && 0 <= i < |todo[j]| ==> todo[j][i] in waiting)
    && (forall j :: b < j < |todo| ==> IsChain(olds[j], todo[j]))
    && (b < |todo| ==> IsChain(cur, todo[b]))
  }

  /** Old chain b can do without its head. */
  lemma PendingStep(olds: array<Entry?>, b: nat, cur: Entry, m: Migration, h: nat)
    requires Pending(olds, b, cur, m.todo, m.waiting.Keys) && Placed(m.todo, m.waiting)
    requires b < |m.todo| && h < |m.done|
    ensures m.todo[b] != [] && cur == m.todo[b][|m.todo[b]| - 1]
    ensures cur in m.waiting
    ensures var m' := MoveHead(m, b, h); Pending(olds, b, cur.next, m'.todo, m'.waiting.Keys)
  {
    var m' := MoveHead(m, b, h);
    forall j, i | 0 <= j < |m'.todo| && 0 <= i < |m'.todo[j]| ensures m'.todo[j][i] in m'.waiting {
      assert m'.todo[j][i] == m.todo[j][i] && m.waiting[m.todo[j][i]] == Place(j, i);
      assert m.waiting[cur] == Place(b, |m.todo[b]| - 1);
    }
    if |m.todo[b]| > 1 {
      assert m.todo[b][|m.todo[b]| - 1].next == m.todo[b][|m.todo[b]| - 2];
    }
  }

  // ---------------------------------------------------------------- walking

  ghost predicate Distinct(es: seq<Entry>) {
    forall i, j :: 0 <= i < j < |es| ==> es[i] != es[j]
  }

  /** The entries of a chain in the order in which the list is walked. */
  ghost function Walk(s: seq<Entry>): seq<Entry> {
    if s == [] then [] else [s[|s| - 1]] + Walk(s[..|s| - 1])
  }

  /** The entries of all chains, bucket by bucket. */
  ghost function Traversal(chains: seq<seq<Entry>>): seq<Entry> {
    if chains == [] then [] else Walk(chains[0]) + Traversal(chains[1..])
  }

  lemma {:induction false} WalkMembers(s: seq<Entry>, e: Entry)
    ensures e in Walk(s) <==> e in s
  {
    if s != [] {
      WalkMembers(s[..|s| - 1], e);
      assert s == s[..|s| - 1] + [s[|s| - 1]];
    }
  }

  lemma {:induction false} WalkDistinct(s: seq<Entry>)
    requires Distinct(s)
    ensures Distinct(Walk(s))
  {
    if s != [] {
      var init := s[..|s| - 1];
      WalkDistinct(init);
      WalkMembers(init, s[|s| - 1]);
      assert forall i :: 0 <= i < |Walk(init)| ==> Walk(init)[i] in Walk(init);
    }
  }

  /** `es` are the entries placed in the buckets from lo to hi. */
  ghost predicate Holds(es: seq<Entry>, places: map<Entry, Place>, lo: int, hi: int) {
    && (forall e :: e in es ==> e in places && lo <= places[e].bucket < hi)
    && (forall e :: e in places && lo <= places[e].bucket < hi ==> e in es)
  }

  /** The chains from bucket b on hold exactly the entries placed there, each once. */
  lemma {:induction false} TraversalMembers(chains: seq<seq<Entry>>, places: map<Entry, Place>, b: nat)
    requires Placed(chains, places) && b <= |chains|
    ensures Holds(Traversal(chains[b..]), places, b, |chains|)
    ensures Distinct(Traversal(chains[b..]))
    decreases |chains| - b
  {
    if b < |chains| {
      TraversalMembers(chains, places, b + 1);
      ChainMembers(chains, places, b);
      var here, rest := Walk(chains[b]), Traversal(chains[b + 1..]);
      assert chains[b..][1..] == chains[b + 1..];
      assert Traversal(chains[b..]) == here + rest;
      DistinctConcat(here, rest);
    }
  }

  lemma ChainMembers(chains: seq<seq<Entry>>, places: map<Entry, Place>, b: nat)
    requires Placed(chains, places) && b < |chains|
    ensures Holds(Walk(chains[b]), places, b, b + 1)
    ensures Distinct(Walk(chains[b]))
  {
    var w := Walk(chains[b]);
    forall e | e in w ensures e in places && places[e] == Place(b, places[e].rank) {
      WalkMembers(chains[b], e);
      var i :| 0 <= i < |chains[b]| && chains[b][i] == e;
    }
    forall e | e in places && places[e].bucket == b ensures e in w {
      WalkMembers(chains[b], e);
    }
    assert Distinct(chains[b]) by {
      forall i, j | 0 <= i < j < |chains[b]| ensures chains[b][i] != chains[b][j] {
        assert places[chains[b][i]] == Place(b, i) && places[chains[b][j]] == Place(b, j);
      }
    }
    WalkDistinct(chains[b]);
  }

  lemma DistinctConcat(a: seq<Entry>, b: seq<Entry>)
    requires Distinct(a) && Distinct(b)
    requires forall e :: e in a ==> e !in b
    ensures Distinct(a + b)
  {
    forall i, j | 0 <= i < j < |a + b| ensures (a + b)[i] != (a + b)[j] {
      if i < |a| <= j { assert a[i] in a && b[j - |a|] in b; }
    }
  }

  ghost predicate Known(es: seq<Entry>, serials: map<Entry, int>, log: seq<Record>) {
    forall e :: e in es ==> e in serials && 0 <= serials[e] < |log|
  }

  /** The records of some entries. */
  ghost function Recs(es: seq<Entry>, serials: map<Entry, int>, log: seq<Record>): (rs: seq<Record>)
    requires Known(es, serials, log)
    ensures |rs| == |es|
  {
    seq(|es|, i requires 0 <= i < |es| => assert es[i] in es; log[serials[es[i]]])
  }

  lemma NextRec(es: seq<Entry>, serials: map<Entry, int>, log: seq<Record>, out: seq<Record>)
    requires Known(es, serials, log) && out <= Recs(es, serials, log) && |out| < |es|
    ensures es[|out|] in serials && 0 <= serials[es[|out|]] < |log|
    ensures out + [log[serials[es[|out|]]]] <= Recs(es, serials, log)
  {
    assert es[|out|] in es;
  }

  /** `es` are the numbered entries whose records satisfy `keep`. */
  ghost predicate Selects(es: seq<Entry>, serials: map<Entry, int>, log: seq<Record>, keep: Record -> bool) {
    && (forall e :: e in es ==> e in serials && 0 <= serials[e] < |log| && keep(log[serials[e]]))
    && (forall e :: e in serials && 0 <= serials[e] < |log| && keep(log[serials[e]]) ==> e in es)
  }

  /** `es` are the entries with identifier id that have at least rank n in chain h. */
  ghost predicate Matched(es: seq<Entry>, h: int, n: int, id: Id,
                          places: map<Entry, Place>, serials: map<Entry, int>, log: seq<Record>)
  {
    && Distinct(es) && Known(es, serials, log)
    && (forall e :: e in es ==> e in places && places[e].bucket == h && places[e].rank >= n && log[serials[e]].id == id)
    && (forall e ::
          (e in places && e in serials && 0 <= serials[e] < |log| &&
           places[e].bucket == h && places[e].rank >= n && log[serials[e]].id == id)
          ==> e in es)
  }

  lemma MatchedStep(es: seq<Entry>, h: int, n: int, id: Id, e: Entry, chains: seq<seq<Entry>>,
                    places: map<Entry, Place>, serials: map<Entry, int>, log: seq<Record>)
    requires Placed(chains, places) && Matched(es, h, n, id, places, serials, log)
    requires e in places && places[e] == Place(h, n - 1) && e in serials && 0 <= serials[e] < |log|
    ensures Matched(if log[serials[e]].id == id then es + [e] else es, h, n - 1, id, places, serials, log)
  {
    forall e' | e' in places && places[e'] == Place(h, n - 1) ensures e' == e {}
  }

  /** All matches in the identifier's own chain are all matches in the log. */
  lemma MatchedAll(es: seq<Entry>, id: Id, sum64: Id -> nat, nodes: seq<Entry>, chains: seq<seq<Entry>>,
                   places: map<Entry, Place>, serials: map<Entry, int>, log: seq<Record>)
    requires Placed(chains, places) && Numbered(nodes, serials) && |nodes| == |log| && serials.Keys == places.Keys
    requires |chains| > 0 && Filed(sum64, |chains|, places, serials, log)
    requires Matched(es, Slot(sum64(id), |chains|), 0, id, places, serials, log)
    ensures Known(es, serials, log)
    ensures multiset(Recs(es, serials, log)) == multiset(WithId(log, id))
  {
    VisitedRecords(es, nodes, serials, log, (r: Record) => r.id == id);
  }

  /** Visiting the entries whose records satisfy `keep`, each once, yields just those records. */
  lemma VisitedRecords(es: seq<Entry>, nodes: seq<Entry>, serials: map<Entry, int>, log: seq<Record>,
                       keep: Record -> bool)
    requires Numbered(nodes, serials) && |nodes| == |log| && Distinct(es)
    requires Selects(es, serials, log, keep)
    ensures multiset(Recs(es, serials, log)) == multiset(Filter(log, keep))
  {
    var ks := seq(|es|, i requires 0 <= i < |es| => assert es[i] in es; serials[es[i]]);
    assert Enumerates(ks, log, keep) by {
      assert forall i :: 0 <= i < |es| ==> es[i] in es;
      forall k | 0 <= k < |log| && keep(log[k]) ensures k in ks {
        assert serials[nodes[k]] == k && nodes[k] in es;
        var i :| 0 <= i < |es| && es[i] == nodes[k];
        assert ks[i] == k;
      }
      forall i, j | 0 <= i < j < |ks| ensures ks[i] != ks[j] {
        assert es[i] == nodes[ks[i]] && es[j] == nodes[ks[j]];
      }
    }
    EnumerationIsPermutation(ks, log, keep);
    assert Pick(log, ks) == Recs(es, serials, log);
  }

  /** A walk over all buckets meets every record of the table once. */
  lemma TraversalRecords(chains: seq<seq<Entry>>, places: map<Entry, Place>,
                         nodes: seq<Entry>, serials: map<Entry, int>, log: seq<Record>)
    requires Placed(chains, places) && Numbered(nodes, serials) && |nodes| == |log| && serials.Keys == places.Keys
    ensures Known(Traversal(chains), serials, log)
    ensures multiset(Recs(Traversal(chains), serials, log)) == multiset(log)
  {
    TraversalMembers(chains, places, 0);
    var keep := (r: Record) => true;
    assert chains[0..] == chains;
    VisitedRecords(Traversal(chains), nodes, serials, log, keep);
    FilterAll(log, keep);
  }

  // ---------------------------------------------------------------- table

  class IndexMap {
    const sum64: Id -> nat
    var buckets: array<Entry?>
    var numentries: nat
    var free: Entry?

    ghost var log: seq<Record>
    ghost var nodes: seq<Entry>
    ghost var serials: map<Entry, int>
    ghost var chains: seq<seq<Entry>>
    ghost var places: map<Entry, Place>
    ghost var spare: seq<Entry>
    ghost var Repr: set<object>

    /** The table's objects; the free list shares no entry with the chains and has no repetition. */
    ghost predicate Owned()
      reads this
    {
      && this in Repr && buckets in Repr && places.Keys <= Repr
      && serials.Keys == places.Keys
      && (forall i :: 0 <= i < |spare| ==> spare[i] in Repr && spare[i] !in places)
      && (forall i, j :: 0 <= i < j < |spare| ==> spare[i] != spare[j])
    }

    ghost predicate Sized()
      reads this
    {
      && numentries == |log|
      && (buckets.Length == 0 ==> log == [])
      && (buckets.Length != 0 ==> IsTableSize(buckets.Length))
      && numentries <= MAX_LOAD * buckets.Length
    }

    ghost predicate Shaped()
      reads this
    {
      && Placed(chains, places)
      && Numbered(nodes, serials)
      && Filed(sum64, |chains|, places, serials, log)
    }

    ghost predicate Valid()
      reads this, Repr
      ensures Valid() ==> this in Repr
    {
      && Owned() && Sized() && Shaped()
      && IsChain(free, spare)
      && Linked(buckets, chains, places.Keys)
      && Records(nodes, log)
    }

    constructor (sum64: Id -> nat)
      ensures Valid() && fresh(Repr)
      ensures log == [] && this.sum64 == sum64
    {
      this.sum64 := sum64;
      buckets := new Entry?[0];
      numentries, free := 0, null;
      log, nodes, serials, chains, places, spare := [], [], map[], [], map[], [];
      new;
      Repr := {this, buckets};
    }

    /** Takes an entry from the free list, refilling the list first if it is empty. */
    method NewEntry() returns (e: Entry)
      requires Owned() && IsChain(free, spare)
      modifies this`free, this`spare, this`Repr
      ensures Owned() && IsChain(free, spare) && fresh(Repr - old(Repr))
      ensures e in Repr && e !in spare && e !in places
    {
      if free == null {
        Refill();
      }
      e := free;
      assert e == spare[|spare| - 1];
      free := free.next;
      spare := spare[..|spare| - 1];
    }

    /** Links a batch of fresh entries into the empty free list. */
    method Refill()
      requires Owned() && free == null
      modifies this`free, this`spare, this`Repr
      ensures Owned() && IsChain(free, spare) && fresh(Repr - old(Repr))
      ensures |spare| == ENTRY_ALLOC_BATCH
    {
      var batch: seq<Entry> := [];
      while |batch| < ENTRY_ALLOC_BATCH
        modifies {}
        invariant |batch| <= ENTRY_ALLOC_BATCH
        invariant fresh(batch)
        invariant forall i, j :: 0 <= i < j < |batch| ==> batch[i] != batch[j]
        invariant IsChain(if batch == [] then null else batch[|batch| - 1], batch)
      {
        var e := new Entry();
        if batch != [] {
          e.next := batch[|batch| - 1];
        }
        batch := batch + [e];
      }
      free := batch[|batch| - 1];
      spare := batch;
      Repr := Repr + set e | e in batch;
    }

    /** Puts `e` at the head of chain h. */
    static method Prepend(buckets: array<Entry?>, h: nat, e: Entry, ghost chains: seq<seq<Entry>>,
                          ghost owners: set<Entry>)
      requires Linked(buckets, chains, owners) && h < buckets.Length && e !in owners
      modifies e`next, buckets
      ensures Linked(buckets, chains[h := chains[h] + [e]], owners + {e})
    {
      e.next := buckets[h];
      buckets[h] := e;
      ghost var chains' := chains[h := chains[h] + [e]];
      forall b | 0 <= b < |chains'| ensures IsChain(buckets[b], chains'[b]) {
        assert old(IsChain(buckets[b], chains[b]));
      }
    }

    /** Allocates the bucket array of an empty table. */
    method Init()
      requires Owned() && Sized() && Shaped() && numentries == 0
      modifies this`buckets, this`chains, this`Repr
      ensures Owned() && Sized() && Shaped() && fresh(Repr - old(Repr))
      ensures Linked(buckets, chains, places.Keys)
      ensures buckets.Length == INITIAL_BUCKETS
    {
      assert IsTableSize(INITIAL_BUCKETS) by { assert INITIAL_BUCKETS == INITIAL_BUCKETS * Pow2(0); }
      assert places.Keys == {};
      buckets := new Entry?[INITIAL_BUCKETS](_ => null);
      chains := seq(INITIAL_BUCKETS, _ => []);
      Repr := Repr + {buckets};
    }

    /** The state of a growing table, with old chain b reduced to the list starting at `cur`. */
    ghost predicate Growing(olds: array<Entry?>, b: nat, cur: Entry?, grown: array<Entry?>, m: Migration)
      reads this, olds, grown, places.Keys`next
    {
      && olds != grown && |m.todo| == olds.Length && 0 < grown.Length == |m.done|
      && Migrating(m, places.Keys, sum64, serials, log)
      && m.waiting.Keys <= places.Keys && m.moved.Keys <= places.Keys
      && Pending(olds, b, cur, m.todo, m.waiting.Keys) && Linked(grown, m.done, m.moved.Keys)
    }

    /** Every used entry carries its numbered log record. */
    ghost predicate Recorded()
      reads this, nodes`id, nodes`packIndex, nodes`offset, nodes`length
    {
      Records(nodes, log) && Numbered(nodes, serials) && serials.Keys == places.Keys
    }

    /** What relinking entry e, the head of old chain b, needs and gives. */
    lemma MoveEntryStep(e: Entry, b: nat, olds: array<Entry?>, grown: array<Entry?>, m: Migration)
      requires Growing(olds, b, e, grown, m) && b < olds.Length && Recorded()
      ensures var h := Slot(sum64(e.id), grown.Length);
        && h < grown.Length && e in places && e !in m.moved && m.todo[b] != []
        && var m' := MoveHead(m, b, h);
        && Migrating(m', places.Keys, sum64, serials, log)
        && m'.waiting.Keys <= places.Keys - {e} && m'.moved.Keys == m.moved.Keys + {e}
        && Pending(olds, b, e.next, m'.todo, m'.waiting.Keys)
    {
      hide Placed;
      hide Filed;
      hide Linked;
      hide Pending;
      hide Slot;
      SlotInRange(sum64(e.id), grown.Length);
      var h := Slot(sum64(e.id), grown.Length);
      PendingStep(olds, b, e, m, h);
      assert e == nodes[serials[e]];
      MigrationStep(m, b, h, places.Keys, sum64, serials, log);
    }

    /** Relinks one entry into its new chain. */
    method MoveEntry(e: Entry, ghost b: nat, olds: array<Entry?>, grown: array<Entry?>, ghost m: Migration)
      returns (next: Entry?, ghost m': Migration)
      requires Growing(olds, b, e, grown, m) && b < olds.Length && Recorded()
      modifies places.Keys`next, grown
      ensures Growing(olds, b, next, grown, m')
      ensures m.todo[b] != [] && m'.todo == m.todo[b := m.todo[b][..|m.todo[b]| - 1]]
    {
      hide Placed;
      hide Filed;
      hide Linked;
      hide Recorded;
      hide Pending;
      hide Migrating;
      hide Slot;
      MoveEntryStep(e, b, olds, grown, m);
      var h := Slot(sum64(e.id), grown.Length);
      m' := MoveHead(m, b, h);
      next := e.next;
      Prepend(grown, h, e, m.done, m.moved.Keys);
    }

    /** Relinks the entries of old chain b into their new chains. */
    method MoveChain(ghost b: nat, head: Entry?, olds: array<Entry?>, grown: array<Entry?>, ghost m: Migration)
      returns (ghost m': Migration)
      requires b < olds.Length == |m.todo| && Growing(olds, b, head, grown, m) && Recorded()
      modifies places.Keys`next, grown
      ensures |m.todo| == |m'.todo| == olds.Length && m'.todo == m.todo[b := []]
      ensures Growing(olds, b + 1, if b + 1 < olds.Length then olds[b + 1] else null, grown, m')
    {
      hide Recorded;
      hide Growing;
      var e := head;
      m' := m;
      while e != null
        invariant |m'.todo| == olds.Length
        invariant Growing(olds, b, e, grown, m') && Recorded()
        invariant m'.todo == m.todo[b := m'.todo[b]]
        decreases |m'.todo[b]|
      {
        e, m' := MoveEntry(e, b, olds, grown, m');
      }
      GrowNext(olds, b, grown, m');
    }

    /** Relinks every entry of the table into the empty array `grown`. */
    method MoveAll(olds: array<Entry?>, grown: array<Entry?>) returns (ghost m: Migration)
      requires Shaped() && olds == buckets && 0 < olds.Length && olds != grown && 0 < grown.Length
      requires forall h :: 0 <= h < grown.Length ==> grown[h] == null
      requires Linked(buckets, chains, places.Keys) && Recorded()
      modifies places.Keys`next, grown
      ensures Placed(m.done, m.moved) && Filed(sum64, |m.done|, m.moved, serials, log)
      ensures Linked(grown, m.done, m.moved.Keys) && m.moved.Keys == places.Keys
      ensures |m.done| == grown.Length && Recorded()
    {
      hide Shaped;
      hide Linked;
      hide Recorded;
      hide Growing;
      hide Placed;
      hide Filed;
      m := GrowStart(olds, grown);
      var b := 0;
      while b < olds.Length
        invariant 0 <= b <= olds.Length == |m.todo|
        invariant Growing(olds, b, if b < olds.Length then olds[b] else null, grown, m) && Recorded()
        invariant forall j :: 0 <= j < b ==> m.todo[j] == []
      {
        m := MoveChain(b, olds[b], olds, grown, m);
        b := b + 1;
      }
      GrowEnd(olds, b, grown, m);
    }

    /** Doubles the bucket array and relinks every entry into its new chain. */
    method Grow()
      requires Owned() && Sized() && Shaped() && buckets.Length > 0
      requires Linked(buckets, chains, places.Keys) && Recorded()
      modifies places.Keys`next, this`buckets, this`chains, this`places, this`Repr
      ensures Owned() && Sized() && Shaped() && fresh(Repr - old(Repr))
      ensures Linked(buckets, chains, places.Keys) && Recorded()
      ensures buckets.Length == GROWTH_FACTOR * old(buckets.Length)
    {
      hide Linked;
      hide Records;
      hide Numbered;
      hide Placed;
      hide Filed;
      hide IsTableSize;
      TableSizeDoubles(buckets.Length);
      var grown := new Entry?[GROWTH_FACTOR * buckets.Length](_ => null);
      ghost var m := MoveAll(buckets, grown);
      buckets, chains, places := grown, m.done, m.moved;
      Repr := Repr + {grown};
    }

    lemma GrowStart(olds: array<Entry?>, grown: array<Entry?>) returns (m: Migration)
      requires Shaped() && olds == buckets && 0 < olds.Length && olds != grown && 0 < grown.Length
      requires forall h :: 0 <= h < grown.Length ==> grown[h] == null
      requires Linked(buckets, chains, places.Keys)
      ensures |m.todo| == olds.Length && Growing(olds, 0, olds[0], grown, m)
    {
      m := Migration(chains, places, seq(grown.Length, _ => []), map[]);
      MigrationStart(chains, places, grown.Length, sum64, serials, log);
    }

    /** An exhausted old chain is empty, and the next one is untouched. */
    lemma GrowNext(olds: array<Entry?>, b: nat, grown: array<Entry?>, m: Migration)
      requires b < olds.Length && Growing(olds, b, null, grown, m)
      ensures m.todo[b] == []
      ensures Growing(olds, b + 1, if b + 1 < olds.Length then olds[b + 1] else null, grown, m)
    {
    }

    lemma GrowEnd(olds: array<Entry?>, b: nat, grown: array<Entry?>, m: Migration)
      requires Growing(olds, b, null, grown, m)
      requires forall j :: 0 <= j < |m.todo| ==> m.todo[j] == []
      ensures Placed(m.done, m.moved) && Filed(sum64, |m.done|, m.moved, serials, log)
      ensures Linked(grown, m.done, m.moved.Keys) && m.moved.Keys == places.Keys
      ensures |m.done| == grown.Length
    {
      MigrationEnd(m, places.Keys, sum64, serials, log);
    }

    /** Fills in a free entry and prepends it to its chain. */
    method Link(e: Entry, id: Id, packIndex: int, offset: uint32, length: uint32)
      requires Valid() && e in Repr && e !in spare && e !in places
      requires buckets.Length > 0 && numentries < MAX_LOAD * buckets.Length
      modifies e, buckets, this`numentries, this`chains, this`places, this`serials, this`nodes, this`log
      ensures Valid()
      ensures log == old(log) + [Record(id, packIndex, offset, length)]
    {
      hide Placed;
      hide Filed;
      hide Linked;
      hide Numbered;
      hide Records;
      hide IsChain;
      hide Slot;
      hide IsTableSize;
      ghost var r := Record(id, packIndex, offset, length);
      SlotInRange(sum64(id), buckets.Length);
      var h := Slot(sum64(id), buckets.Length);
      FiledPush(h, e, r);
      e.Fill(id, packIndex, offset, length);
      RecordsPush(nodes, log, e, r);
      Prepend(buckets, h, e, chains, places.Keys);
      numentries := numentries + 1;
      Note(h, e, r);
    }

    /** Brings the ghost state up to date with a newly chained entry. */
    ghost method Note(h: nat, e: Entry, r: Record)
      requires Owned() && e in Repr && e !in spare && e !in places && e !in serials
      requires numentries == |log| + 1 && 0 < buckets.Length && IsTableSize(buckets.Length)
      requires numentries <= MAX_LOAD * buckets.Length && |chains| == buckets.Length && h < |chains|
      requires IsChain(free, spare)
      requires Linked(buckets, chains[h := chains[h] + [e]], places.Keys + {e})
      requires Records(nodes + [e], log + [r])
      requires Placed(chains[h := chains[h] + [e]], places[e := Place(h, |chains[h]|)])
      requires Numbered(nodes + [e], serials[e := |nodes|])
      requires Filed(sum64, |chains|, places[e := Place(h, |chains[h]|)], serials[e := |nodes|], log + [r])
      modifies this`chains, this`places, this`serials, this`nodes, this`log
      ensures Valid() && log == old(log) + [r]
    {
      hide Placed;
      hide Filed;
      hide Linked;
      hide Numbered;
      hide Records;
      hide IsChain;
      hide IsTableSize;
      assert places[e := Place(h, |chains[h]|)].Keys == places.Keys + {e};
      places, serials := places[e := Place(h, |chains[h]|)], serials[e := |nodes|];
      chains := chains[h := chains[h] + [e]];
      nodes, log := nodes + [e], log + [r];
    }

    lemma SameSizes()
      requires Valid()
      ensures |chains| == buckets.Length && |nodes| == |log|
    {
      hide Placed;
      hide Filed;
      hide Numbered;
    }

    lemma FiledPush(h: nat, e: Entry, r: Record)
      requires Valid() && h < buckets.Length && e !in places
      requires h == Slot(sum64(r.id), buckets.Length)
      ensures |chains| == buckets.Length && |nodes| == |log| && e !in nodes
      ensures Placed(chains[h := chains[h] + [e]], places[e := Place(h, |chains[h]|)])
      ensures Numbered(nodes + [e], serials[e := |nodes|])
      ensures Filed(sum64, |chains|, places[e := Place(h, |chains[h]|)], serials[e := |nodes|], log + [r])
    {
      hide Placed;
      hide Linked;
      hide Records;
      hide Slot;
      hide IsTableSize;
      SameSizes();
      PlacedPush(chains, places, h, e);
      FiledMore(sum64, buckets.Length, places, serials, log, h, |chains[h]|, e, r);
    }

    /** Adds a record under `id`; records with equal identifiers are all kept. */
    method Add(id: Id, packIndex: int, offset: uint32, length: uint32)
      requires Valid()
      modifies Repr
      ensures Valid() && fresh(Repr - old(Repr))
      ensures log == old(log) + [Record(id, packIndex, offset, length)]
    {
      hide Placed;
      hide Filed;
      hide Linked;
      hide Records;
      hide Numbered;
      hide IsTableSize;
      if numentries == 0 {
        Init();
      } else if numentries >= MAX_LOAD * buckets.Length {
        Grow();
      }
      var e := NewEntry();
      Link(e, id, packIndex, offset, length);
    }

    /** The list starting at `cur` is what is left of chain b after its first few entries. */
    ghost predicate Walking(b: int, n: int, cur: Entry?)
      reads this, places.Keys`next
    {
      0 <= b < |chains| && 0 <= n <= |chains[b]| &&
      (forall i :: 0 <= i < n ==> chains[b][i] in places) && IsChain(cur, chains[b][..n])
    }

    lemma WalkStep(b: nat, n: nat, e: Entry)
      requires Valid() && Walking(b, n, e)
      ensures n > 0 && Walking(b, n - 1, e.next)
      ensures e in places && places[e] == Place(b, n - 1) && e in serials && 0 <= serials[e] < |log|
      ensures e.Rec() == log[serials[e]]
      ensures Walk(chains[b][..n]) == [e] + Walk(chains[b][..n - 1])
    {
      hide Filed;
      hide Linked;
      var s := chains[b][..n];
      assert e == s[n - 1] == chains[b][n - 1];
      assert s[..n - 1] == chains[b][..n - 1];
      if n > 1 { assert s[n - 1].next == s[n - 2]; }
      assert nodes[serials[e]] == e;
    }

    /** What a traversal still has to visit: n entries of chain b, and the chains after it. */
    ghost predicate Left(done: nat, b: int, n: int)
      reads this
    {
      && 0 <= b < |chains| && 0 <= n <= |chains[b]|
      && done <= |Traversal(chains)|
      && Traversal(chains)[done..] == Walk(chains[b][..n]) + Traversal(chains[b + 1..])
    }

    /** The traversal is about to enter bucket b. */
    ghost predicate AtBucket(done: nat, b: int)
      reads this
    {
      0 <= b <= |chains| && done <= |Traversal(chains)| && Traversal(chains)[done..] == Traversal(chains[b..])
    }

    lemma EnterBucket(done: nat, b: nat)
      requires Valid() && b < buckets.Length && AtBucket(done, b)
      ensures b < |chains| && Left(done, b, |chains[b]|) && Walking(b, |chains[b]|, buckets[b])
    {
      assert chains[b..][1..] == chains[b + 1..] && chains[b][..|chains[b]|] == chains[b];
    }

    lemma LeaveBucket(done: nat, b: nat, n: nat)
      requires Left(done, b, n) && Walking(b, n, null)
      ensures AtBucket(done, b + 1)
    {
      assert chains[b][..0] == [];
    }

    lemma VisitEntry(done: nat, b: nat, n: nat, e: Entry)
      requires Valid() && Left(done, b, n) && Walking(b, n, e)
      ensures n > 0 && Left(done + 1, b, n - 1) && Walking(b, n - 1, e.next)
      ensures done < |Traversal(chains)| && Traversal(chains)[done] == e
      ensures e in places && e in serials && 0 <= serials[e] < |log| && e.Rec() == log[serials[e]]
    {
      hide Walking;
      hide Valid;
      WalkStep(b, n, e);
      var t := Traversal(chains);
      assert t[done..] == [e] + (Walk(chains[b][..n - 1]) + Traversal(chains[b + 1..]));
      assert t[done..][0] == e;
      assert t[done..][1..] == t[done + 1..];
    }

    /** Calls fn on every entry, bucket by bucket, until it returns false; `out` lists the calls. */
    method ForEach(fn: Record -> bool) returns (out: seq<Record>, ghost all: seq<Record>)
      requires Valid()
      ensures multiset(all) == multiset(log)
      ensures out <= all
      ensures forall i :: 0 <= i < |out| - 1 ==> fn(out[i])
      ensures out == all || (out != [] && !fn(out[|out| - 1]))
    {
      hide Walking;
      hide Valid;
      hide Left;
      hide AtBucket;
      hide Traversal;
      hide Recs;
      hide Known;
      TraversalIsLog();
      all := Recs(Traversal(chains), serials, log);
      out := [];
      var b := 0;
      while b < buckets.Length
        invariant 0 <= b <= buckets.Length && AtBucket(|out|, b)
        invariant out <= all
        invariant forall i :: 0 <= i < |out| ==> fn(out[i])
      {
        EnterBucket(|out|, b);
        var e := buckets[b];
        ghost var n := |chains[b]|;
        while e != null
          invariant 0 <= n && Walking(b, n, e) && Left(|out|, b, n)
          invariant out <= all
          invariant forall i :: 0 <= i < |out| ==> fn(out[i])
          decreases n
        {
          VisitEntry(|out|, b, n, e);
          NextRec(Traversal(chains), serials, log, out);
          out := out + [e.Rec()];
          if !fn(e.Rec()) {
            return;
          }
          e, n := e.next, n - 1;
        }
        LeaveBucket(|out|, b, n);
        b := b + 1;
      }
      TraversalDone(|out|, b);
    }

    lemma TraversalIsLog()
      requires Valid()
      ensures AtBucket(0, 0)
      ensures Known(Traversal(chains), serials, log)
      ensures multiset(Recs(Traversal(chains), serials, log)) == multiset(log)
    {
      TraversalRecords(chains, places, nodes, serials, log);
      assert chains[0..] == chains && Traversal(chains)[0..] == Traversal(chains);
    }

    lemma TraversalDone(done: nat, b: nat)
      requires Valid() && b == buckets.Length && AtBucket(done, b)
      ensures done == |Traversal(chains)|
    {
      assert chains[b..] == [];
    }

    /** The walk down chain h in search of `id`, with n entries to go. */
    ghost predicate Searching(es: seq<Entry>, h: int, n: int, id: Id, cur: Entry?)
      reads this, places.Keys`next
    {
      Walking(h, n, cur) && Matched(es, h, n, id, places, serials, log)
    }

    lemma SearchStart(h: nat, id: Id)
      requires Valid() && h < buckets.Length
      ensures h < |chains| && Searching([], h, |chains[h]|, id, buckets[h])
    {
      assert chains[h][..|chains[h]|] == chains[h];
    }

    lemma SearchStep(es: seq<Entry>, h: nat, n: nat, id: Id, e: Entry)
      requires Valid() && Searching(es, h, n, id, e)
      ensures n > 0 && e in serials && 0 <= serials[e] < |log| && e.Rec() == log[serials[e]]
      ensures Searching(if e.id == id then es + [e] else es, h, n - 1, id, e.next)
    {
      hide Matched;
      hide Walking;
      WalkStep(h, n, e);
      MatchedStep(es, h, n, id, e, chains, places, serials, log);
    }

    lemma SearchEnd(es: seq<Entry>, n: nat, id: Id)
      requires Valid() && buckets.Length > 0 && Searching(es, Slot(sum64(id), buckets.Length), n, id, null)
      ensures Known(es, serials, log)
      ensures multiset(Recs(es, serials, log)) == multiset(WithId(log, id))
    {
      hide Linked;
      hide Records;
      hide Matched;
      hide Placed;
      hide Filed;
      hide Numbered;
      hide Slot;
      SameSizes();
      assert n == 0;
      MatchedAll(es, id, sum64, nodes, chains, places, serials, log);
    }

    /** Calls a function on every entry with the given identifier; `out` lists the calls. */
    method ForEachWithId(id: Id) returns (out: seq<Record>)
      requires Valid()
      ensures multiset(out) == multiset(WithId(log, id))
    {
      hide Valid;
      hide Searching;
      hide Slot;
      if buckets.Length == 0 {
        EmptyTable();
        return [];
      }
      SlotInRange(sum64(id), buckets.Length);
      var h := Slot(sum64(id), buckets.Length);
      SearchStart(h, id);
      var e := buckets[h];
      ghost var n, es: seq<Entry> := |chains[h]|, [];
      out := [];
      while e != null
        invariant 0 <= n && Searching(es, h, n, id, e)
        invariant Known(es, serials, log) && out == Recs(es, serials, log)
        decreases n
      {
        SearchStep(es, h, n, id, e);
        if e.id == id {
          out := out + [e.Rec()];
          es := es + [e];
        }
        e, n := e.next, n - 1;
      }
      SearchEnd(es, n, id);
    }

    /** The first entry found for an identifier, if there is one. */
    method Get(id: Id) returns (r: Option<Record>)
      requires Valid()
      ensures r.Some? ==> r.value in log && r.value.id == id
      ensures r.None? <==> forall k :: 0 <= k < |log| ==> log[k].id != id
    {
      hide Valid;
      hide Searching;
      hide Slot;
      if buckets.Length == 0 {
        EmptyTable();
        return None;
      }
      SlotInRange(sum64(id), buckets.Length);
      var h := Slot(sum64(id), buckets.Length);
      SearchStart(h, id);
      var e := buckets[h];
      ghost var n := |chains[h]|;
      while e != null
        invariant 0 <= n && Searching([], h, n, id, e)
        decreases n
      {
        SearchStep([], h, n, id, e);
        if e.id == id {
          return Some(e.Rec());
        }
        e, n := e.next, n - 1;
      }
      SearchEnd([], n, id);
      NothingFound(serials, log, id);
      r := None;
    }

    lemma EmptyTable()
      requires Valid() && buckets.Length == 0
      ensures log == []
    {
    }
  }

  lemma NothingFound(serials: map<Entry, int>, log: seq<Record>, id: Id)
    requires multiset(Recs([], serials, log)) == multiset(WithId(log, id))
    ensures forall k :: 0 <= k < |log| ==> log[k].id != id
  {
    hide WithId;
    NoneWithId(log, id);
    assert |multiset(WithId(log, id))| == |WithId(log, id)|;
  }

  lemma {:induction false} NoneWithId(log: seq<Record>, id: Id)
    ensures WithId(log, id) == [] <==> forall k :: 0 <= k < |log| ==> log[k].id != id
  {
    if log != [] {
      NoneWithId(log[..|log| - 1], id);
      assert WithId(log[..|log| - 1], id) == Filter(log[..|log| - 1], (r: Record) => r.id == id);
    }
  }
}
