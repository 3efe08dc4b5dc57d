/**
 The retention policy: which snapshots are kept and why.  Snapshots are looked at
 from the newest to the oldest; every period has a counter, and takes one snapshot
 whenever the period changes.
 */
module Policies {
  import opened Blobs

  datatype Duration = Duration(hours: int, days: int, months: int, years: int)
  {
    predicate Zero() {
      this == Duration(0, 0, 0, 0)
    }
  }

  /** Calendar fields of a point in time, in one time zone, and moving back by a duration. */
  datatype Calendar = Calendar(year: int -> int, month: int -> int, day: int -> int, hour: int -> int,
                               isoYear: int -> int, isoWeek: int -> int, back: (int, Duration) -> int, zero: int)
  {
    ghost predicate FieldsInRange(t: int) {
      1 <= month(t) <= 12 && 1 <= day(t) <= 31 && 0 <= hour(t) <= 23 && 1 <= isoWeek(t) <= 53
    }

    ghost predicate Later(t: int, u: int) {
      && year(t) <= year(u) && (year(t) == year(u) ==> month(t) <= month(u))
      && (year(t) == year(u) && month(t) == month(u) ==> day(t) <= day(u))
      && (year(t) == year(u) && month(t) == month(u) && day(t) == day(u) ==> hour(t) <= hour(u))
      && isoYear(t) <= isoYear(u) && (isoYear(t) == isoYear(u) ==> isoWeek(t) <= isoWeek(u))
    }

    /** The fields are in range, and later times do not have smaller dates. */
    ghost predicate Lawful() {
      (forall t :: FieldsInRange(t)) && forall t, u :: t <= u ==> Later(t, u)
    }
  }

  datatype Snapshot = Snapshot(time: int, tags: seq<string>, name: string)

  datatype Policy = Policy(counts: seq<int>, within: Duration, withins: seq<Duration>, tags: seq<seq<string>>)
  {
    /** Six counters: last, hourly, daily, weekly, monthly, yearly; five durations, from hourly to yearly. */
    predicate Valid() {
      |counts| == BUCKETS && |withins| == WITHIN_BUCKETS
    }

    predicate Empty() {
      && tags == [] && within.Zero()
      && (forall i :: 0 <= i < |counts| ==> counts[i] == 0) && (forall i :: 0 <= i < |withins| ==> withins[i].Zero())
    }
  }

  const BUCKETS: nat := 6
  const WITHIN_BUCKETS: nat := 5
  const YEARLY: nat := 5

  datatype Match =
    | PolicyEmpty
    | HasTagList(tags: seq<string>)
    | Within
    | Counted(bucket: nat)
    | CountedWithin(bucket: nat)

  datatype Reason = Reason(snapshot: Snapshot, matches: seq<Match>, counters: seq<int>)

  // ---------------------------------------------------------------- periods

  /** The number of the period that a snapshot belongs to; bucket 0 counts every snapshot. */
  function Bucker(cal: Calendar, bucket: nat, t: int, nr: int): int {
    match bucket
    case 0 => nr
    case 1 => cal.year(t) * 1000000 + cal.month(t) * 10000 + cal.day(t) * 100 + cal.hour(t)
    case 2 => cal.year(t) * 10000 + cal.month(t) * 100 + cal.day(t)
    case 3 => cal.isoYear(t) * 100 + cal.isoWeek(t)
    case 4 => cal.year(t) * 100 + cal.month(t)
    case _ => cal.year(t)
  }

  /** Later snapshots have no smaller period numbers. */
  lemma BuckerMonotone(cal: Calendar, bucket: nat, t: int, u: int, nr: int)
    requires cal.Lawful() && t <= u && bucket > 0
    ensures Bucker(cal, bucket, t, nr) <= Bucker(cal, bucket, u, nr)
  {
    assert cal.FieldsInRange(t) && cal.FieldsInRange(u) && cal.Later(t, u);
  }

  ghost predicate NewestFirst(list: seq<Snapshot>) {
    forall i, j :: 0 <= i < j < |list| ==> list[i].time >= list[j].time
  }

  /** The periods of a list of snapshots. */
  ghost function Values(cal: Calendar, bucket: nat, list: seq<Snapshot>): (vals: seq<int>)
    ensures |vals| == |list| && forall k :: 0 <= k < |list| ==> vals[k] == Bucker(cal, bucket, list[k].time, k)
  {
    seq(|list|, k requires 0 <= k < |list| => Bucker(cal, bucket, list[k].time, k))
  }

  /** Snapshots of one period are next to each other. */
  ghost predicate Grouped(vals: seq<int>) {
    forall i, j, k :: 0 <= i < j < k < |vals| && vals[i] == vals[k] ==> vals[j] == vals[k]
  }

  lemma ValuesGrouped(cal: Calendar, bucket: nat, list: seq<Snapshot>)
    requires cal.Lawful() && NewestFirst(list)
    ensures Grouped(Values(cal, bucket, list))
  {
    hide Bucker;
    var vals := Values(cal, bucket, list);
    if bucket == 0 {
      BuckerZero(cal, list);
    } else {
      forall i, j | 0 <= i < j < |vals| ensures vals[i] >= vals[j] {
        BuckerMonotone(cal, bucket, list[j].time, list[i].time, i);
        BuckerIgnores(cal, bucket, list[j].time, i, j);
      }
    }
  }

  lemma BuckerZero(cal: Calendar, list: seq<Snapshot>)
    ensures forall k :: 0 <= k < |list| ==> Values(cal, 0, list)[k] == k
  {
  }

  lemma BuckerIgnores(cal: Calendar, bucket: nat, t: int, i: int, j: int)
    requires bucket > 0
    ensures Bucker(cal, bucket, t, i) == Bucker(cal, bucket, t, j)
  {
  }

  // ---------------------------------------------------------------- one counter

  /** A counter after k snapshots: what is left, and the last period that it took a snapshot from. */
  function After(vals: seq<int>, n: int, k: nat): (int, int)
    requires k <= |vals|
  {
    if k == 0 then (n, -1)
    else
      var (count, last) := After(vals, n, k - 1);
      if count > 0 && vals[k - 1] != last then (count - 1, vals[k - 1]) else (count, last)
  }

  /** The counter takes the k-th snapshot. */
  predicate Takes(vals: seq<int>, n: int, k: nat)
    requires k < |vals|
  {
    After(vals, n, k).0 > 0 && vals[k] != After(vals, n, k).1
  }

  ghost function Distinct(vals: seq<int>): set<int> {
    set k | 0 <= k < |vals| :: vals[k]
  }

  /** The k-th snapshot is the newest of its period, and its period is among the n most recent. */
  ghost predicate NewestOfRecent(vals: seq<int>, n: int, k: nat)
    requires k < |vals|
  {
    vals[k] !in vals[..k] && |Distinct(vals[..k])| < n
  }

  lemma DistinctStep(vals: seq<int>, k: nat)
    requires k < |vals|
    ensures Distinct(vals[..k + 1]) == Distinct(vals[..k]) + {vals[k]}
    ensures vals[k] in Distinct(vals[..k]) <==> vals[k] in vals[..k]
    ensures |Distinct(vals[..k + 1])| == |Distinct(vals[..k])| + if vals[k] in vals[..k] then 0 else 1
  {
    assert vals[..k + 1] == vals[..k] + [vals[k]];
    var a, b := Distinct(vals[..k + 1]), Distinct(vals[..k]);
    forall x | x in a ensures x in b + {vals[k]} {
      var j :| 0 <= j < k + 1 && vals[..k + 1][j] == x;
      assert j < k ==> vals[..k][j] == x;
    }
    forall x | x in b ensures x in a {
      var j :| 0 <= j < k && vals[..k][j] == x;
      assert vals[..k + 1][j] == x;
    }
    assert vals[..k + 1][k] == vals[k];
    assert a == b + {vals[k]};
  }

  /** Counters start as if period -1 had just been taken from; the newest snapshots do not count if they are in it. */
  ghost function Unseen(vals: seq<int>): set<int> {
    if vals != [] && vals[0] == -1 then {-1} else {}
  }

  /** The k-th snapshot is the newest of its period, and its period is among the n most recent that are seen. */
  ghost predicate NewestOfSeen(vals: seq<int>, n: int, k: nat)
    requires k < |vals|
  {
    NewestSeen(vals, k) && |Distinct(vals[..k]) - Unseen(vals)| < n
  }

  ghost predicate NewestSeen(vals: seq<int>, k: nat)
    requires k < |vals|
  {
    vals[k] !in vals[..k] && (k == 0 ==> vals[0] != -1)
  }

  /** While something is left, the last period is that of the previous snapshot, and every period seen cost one. */
  lemma {:induction false} AfterMeaning(vals: seq<int>, n: int, k: nat)
    requires Grouped(vals) && k <= |vals| && n > 0
    ensures var (count, last) := After(vals, n, k);
            var seen := |Distinct(vals[..k]) - Unseen(vals)|;
            && count == (if seen < n then n - seen else 0)
            && (count > 0 ==> last == if k == 0 then -1 else vals[k - 1])
  {
    hide Grouped;
    hide Distinct;
    if k == 0 {
      NoDistinct(vals);
    } else {
      AfterMeaning(vals, n, k - 1);
      SeenStep(vals, k - 1);
      SamePeriod(vals, k - 1);
    }
  }

  lemma SeenStep(vals: seq<int>, k: nat)
    requires k < |vals|
    ensures |Distinct(vals[..k + 1]) - Unseen(vals)| ==
            |Distinct(vals[..k]) - Unseen(vals)| + if NewestSeen(vals, k) then 1 else 0
  {
    hide Distinct;
    DistinctStep(vals, k);
    var a, b := Distinct(vals[..k + 1]) - Unseen(vals), Distinct(vals[..k]) - Unseen(vals);
    if NewestSeen(vals, k) {
      NewestIsSeen(vals, k);
      assert a == b + {vals[k]};
    } else {
      assert a == b;
    }
  }

  lemma NewestIsSeen(vals: seq<int>, k: nat)
    requires k < |vals| && NewestSeen(vals, k)
    ensures vals[k] !in Unseen(vals)
  {
    if k > 0 {
      assert vals[..k][0] == vals[0];
    }
  }

  /** The counter takes exactly the newest snapshot of each of the n most recent periods that are seen. */
  lemma TakesMeaning(vals: seq<int>, n: int, k: nat)
    requires Grouped(vals) && k < |vals|
    ensures Takes(vals, n, k) <==> NewestOfSeen(vals, n, k)
  {
    if n <= 0 {
      NothingLeft(vals, n, k);
    } else {
      AfterMeaning(vals, n, k);
      SamePeriod(vals, k);
    }
  }

  lemma NoDistinct(vals: seq<int>)
    ensures Distinct(vals[..0]) == {}
  {
  }

  /** A period that occurred before is that of the previous snapshot. */
  lemma SamePeriod(vals: seq<int>, k: nat)
    requires Grouped(vals) && k < |vals|
    ensures vals[k] in vals[..k] <==> k > 0 && vals[k - 1] == vals[k]
  {
    if vals[k] in vals[..k] {
      var i :| 0 <= i < k && vals[..k][i] == vals[k];
      assert vals[i] == vals[k];
    } else if k > 0 {
      assert vals[..k][k - 1] == vals[k - 1];
    }
  }

  /**
   The counter takes exactly the newest snapshot of each of the n most recent
   periods, provided that the newest snapshot is not in period -1.
   */
  lemma TakesExactly(vals: seq<int>, n: int)
    requires Grouped(vals)
    ensures (forall k :: 0 <= k < |vals| ==> (Takes(vals, n, k) <==> NewestOfRecent(vals, n, k)))
            <==> n <= 0 || vals == [] || vals[0] != -1
  {
    if n <= 0 {
      forall k | 0 <= k < |vals| ensures !Takes(vals, n, k) {
        NothingLeft(vals, n, k);
      }
    } else if vals != [] && vals[0] == -1 {
      assert vals[..0] == [] && Distinct(vals[..0]) == {};
      assert !Takes(vals, n, 0) && NewestOfRecent(vals, n, 0);
    } else {
      forall k | 0 <= k < |vals| ensures Takes(vals, n, k) <==> NewestOfRecent(vals, n, k) {
        TakesMeaning(vals, n, k);
        assert Distinct(vals[..k]) - Unseen(vals) == Distinct(vals[..k]);
      }
    }
  }

  lemma {:induction false} NothingLeft(vals: seq<int>, n: int, k: nat)
    requires n <= 0 && k <= |vals|
    ensures After(vals, n, k).0 == n
  {
    if k > 0 {
      NothingLeft(vals, n, k - 1);
    }
  }

  // ---------------------------------------------------------------- one period, within a duration

  /** The last period that a snapshot was taken from, of the recent ones. */
  function LastWithin(vals: seq<int>, recent: seq<bool>, k: nat): int
    requires k <= |vals| == |recent|
  {
    if k == 0 then -1
    else
      var last := LastWithin(vals, recent, k - 1);
      if recent[k - 1] && vals[k - 1] != last then vals[k - 1] else last
  }

  predicate TakesWithin(vals: seq<int>, recent: seq<bool>, k: nat)
    requires k < |vals| == |recent|
  {
    recent[k] && vals[k] != LastWithin(vals, recent, k)
  }

  lemma {:induction false} LastWithinMeaning(vals: seq<int>, recent: seq<bool>, k: nat)
    requires Grouped(vals) && k <= |vals| == |recent| && (forall j :: 0 <= j < k ==> recent[j])
    ensures LastWithin(vals, recent, k) == if k == 0 then -1 else vals[k - 1]
  {
    if k > 0 {
      LastWithinMeaning(vals, recent, k - 1);
    }
  }

  /** Of the recent snapshots, the newest of every period is taken, but for the very newest in period -1. */
  lemma TakesWithinMeaning(vals: seq<int>, recent: seq<bool>, k: nat)
    requires Grouped(vals) && k < |vals| == |recent|
    requires forall i, j :: 0 <= i < j < |recent| && recent[j] ==> recent[i]
    ensures TakesWithin(vals, recent, k) <==> recent[k] && NewestSeen(vals, k)
  {
    if recent[k] {
      LastWithinMeaning(vals, recent, k);
      SamePeriod(vals, k);
    }
  }

  /** Of the recent snapshots, the newest of every period is taken, provided that the newest is not in period -1. */
  lemma TakesWithinExactly(vals: seq<int>, recent: seq<bool>)
    requires Grouped(vals) && |vals| == |recent| && forall j, k :: 0 <= j < k < |recent| && recent[k] ==> recent[j]
    ensures (forall k :: 0 <= k < |vals| ==> (TakesWithin(vals, recent, k) <==> recent[k] && vals[k] !in vals[..k]))
            <==> vals == [] || !recent[0] || vals[0] != -1
  {
    if vals != [] && recent[0] && vals[0] == -1 {
      assert !TakesWithin(vals, recent, 0) && vals[0] !in vals[..0];
    } else {
      forall k | 0 <= k < |vals| ensures TakesWithin(vals, recent, k) <==> recent[k] && vals[k] !in vals[..k] {
        TakesWithinMeaning(vals, recent, k);
      }
    }
  }

  // ---------------------------------------------------------------- what matches

  /** All tags of the list are there; the empty tag stands for having none. */
  ghost predicate HasAll(tags: seq<string>, l: seq<string>) {
    (forall t :: t in l ==> t in tags) || (tags == [] && l != [] && l[0] == "")
  }

  method HasTags(tags: seq<string>, l: seq<string>) returns (has: bool)
    ensures has <==> HasAll(tags, l)
  {
    for i := 0 to |l|
      invariant forall j :: 0 <= j < i ==> l[j] in tags
    {
      if l[i] == "" && tags == [] {
        return true;
      }
      if l[i] !in tags {
        return false;
      }
    }
    has := true;
  }

  ghost function TagMatches(lists: seq<seq<string>>, tags: seq<string>): seq<Match> {
    if lists == [] then []
    else
      var rest, l := TagMatches(lists[..|lists| - 1], tags), lists[|lists| - 1];
      if HasAll(tags, l) then rest + [HasTagList(l)] else rest
  }

  function Recent(cal: Calendar, d: Duration, latest: int, t: int): bool {
    !d.Zero() && t > cal.back(latest, d)
  }

  ghost function RecentOnes(cal: Calendar, d: Duration, latest: int, list: seq<Snapshot>): (r: seq<bool>)
    ensures |r| == |list| && forall k :: 0 <= k < |list| ==> r[k] == Recent(cal, d, latest, list[k].time)
  {
    seq(|list|, k requires 0 <= k < |list| => Recent(cal, d, latest, list[k].time))
  }

  /** The counters, among the first m, that take the k-th snapshot. */
  ghost function CountMatches(cal: Calendar, p: Policy, list: seq<Snapshot>, k: nat, m: nat): seq<Match>
    requires p.Valid() && k < |list| && m <= BUCKETS
  {
    if m == 0 then []
    else CountMatches(cal, p, list, k, m - 1)
         + if Takes(Values(cal, m - 1, list), p.counts[m - 1], k) then [Counted(m - 1)] else []
  }

  /** The durations, among the first m, within which the k-th snapshot is taken. */
  ghost function WithinMatches(cal: Calendar, p: Policy, latest: int, list: seq<Snapshot>, k: nat, m: nat): seq<Match>
    requires p.Valid() && k < |list| && m <= WITHIN_BUCKETS
  {
    if m == 0 then []
    else WithinMatches(cal, p, latest, list, k, m - 1)
         + if TakesWithin(Values(cal, m, list), RecentOnes(cal, p.withins[m - 1], latest, list), k)
           then [CountedWithin(m - 1)]
           else []
  }

  /** Everything that speaks for keeping the k-th snapshot. */
  ghost function Matches(cal: Calendar, p: Policy, latest: int, list: seq<Snapshot>, k: nat): seq<Match>
    requires p.Valid() && k < |list|
  {
    TagMatches(p.tags, list[k].tags)
    + (if Recent(cal, p.within, latest, list[k].time) then [Within] else [])
    + CountMatches(cal, p, list, k, BUCKETS) + WithinMatches(cal, p, latest, list, k, WITHIN_BUCKETS)
  }

  ghost predicate Kept(cal: Calendar, p: Policy, latest: int, list: seq<Snapshot>, k: nat)
    requires p.Valid() && k < |list|
  {
    Matches(cal, p, latest, list, k) != []
  }

  /** The counters after k snapshots. */
  ghost function Counters(cal: Calendar, p: Policy, list: seq<Snapshot>, k: nat): (c: seq<int>)
    requires p.Valid() && k <= |list|
    ensures |c| == BUCKETS && forall i :: 0 <= i < BUCKETS ==> c[i] == After(Values(cal, i, list), p.counts[i], k).0
  {
    seq(BUCKETS, i requires 0 <= i < BUCKETS => After(Values(cal, i, list), p.counts[i], k).0)
  }

  /** The snapshots among the first n that are kept, or that are not, in order. */
  ghost function Picked(cal: Calendar, p: Policy, latest: int, list: seq<Snapshot>, n: nat, kept: bool): seq<Snapshot>
    requires p.Valid() && n <= |list|
  {
    if n == 0 then []
    else
      var rest := Picked(cal, p, latest, list, n - 1, kept);
      if Kept(cal, p, latest, list, n - 1) == kept then rest + [list[n - 1]] else rest
  }

  ghost function ReasonsFor(cal: Calendar, p: Policy, latest: int, list: seq<Snapshot>, n: nat): seq<Reason>
    requires p.Valid() && n <= |list|
  {
    if n == 0 then []
    else
      var rest := ReasonsFor(cal, p, latest, list, n - 1);
      if Kept(cal, p, latest, list, n - 1)
      then rest + [Reason(list[n - 1], Matches(cal, p, latest, list, n - 1), Counters(cal, p, list, n))]
      else rest
  }

  /** Every snapshot is kept or removed. */
  lemma {:induction false} PickedPartitions(cal: Calendar, p: Policy, latest: int, list: seq<Snapshot>, n: nat)
    requires p.Valid() && n <= |list|
    ensures multiset(Picked(cal, p, latest, list, n, true)) + multiset(Picked(cal, p, latest, list, n, false)) ==
            multiset(list[..n])
  {
    hide Kept;
    hide Picked;
    if n == 0 {
      NonePicked(cal, p, latest, list);
    } else {
      PickedPartitions(cal, p, latest, list, n - 1);
      PickedStep(cal, p, latest, list, n);
      assert list[..n] == list[..n - 1] + [list[n - 1]];
      MultisetPush(list[..n - 1], list[n - 1]);
      OneMore(multiset(Picked(cal, p, latest, list, n - 1, true)), multiset(Picked(cal, p, latest, list, n - 1, false)),
              list[n - 1]);
    }
  }

  lemma NonePicked(cal: Calendar, p: Policy, latest: int, list: seq<Snapshot>)
    requires p.Valid()
    ensures Picked(cal, p, latest, list, 0, true) == [] == Picked(cal, p, latest, list, 0, false)
  {
  }

  lemma PickedStep(cal: Calendar, p: Policy, latest: int, list: seq<Snapshot>, n: nat)
    requires p.Valid() && 0 < n <= |list|
    ensures var kept := Kept(cal, p, latest, list, n - 1);
            && multiset(Picked(cal, p, latest, list, n, kept)) ==
               multiset(Picked(cal, p, latest, list, n - 1, kept)) + multiset{list[n - 1]}
            && Picked(cal, p, latest, list, n, !kept) == Picked(cal, p, latest, list, n - 1, !kept)
  {
    hide Kept;
    MultisetPush(Picked(cal, p, latest, list, n - 1, Kept(cal, p, latest, list, n - 1)), list[n - 1]);
  }

  lemma OneMore<T>(a: multiset<T>, b: multiset<T>, x: T)
    ensures a + multiset{x} + b == a + b + multiset{x} && a + (b + multiset{x}) == a + b + multiset{x}
  {
  }

  /** There is a reason for each snapshot that is kept, in the same order. */
  lemma {:induction false} ReasonsAligned(cal: Calendar, p: Policy, latest: int, list: seq<Snapshot>, n: nat)
    requires p.Valid() && n <= |list|
    ensures var keep, reasons := Picked(cal, p, latest, list, n, true), ReasonsFor(cal, p, latest, list, n);
            |keep| == |reasons| && forall k :: 0 <= k < |keep| ==> reasons[k].snapshot == keep[k]
  {
    hide Kept;
    hide Matches;
    hide Counters;
    if n > 0 {
      ReasonsAligned(cal, p, latest, list, n - 1);
    }
  }

  // ---------------------------------------------------------------- applying a policy

  /** The state of the counters after k snapshots. */
  ghost predicate CountersAt(cal: Calendar, p: Policy, list: seq<Snapshot>, k: nat, counts: seq<int>, lasts: seq<int>,
                             m: nat, k1: nat)
    requires p.Valid() && k <= |list| && k1 <= |list| && |counts| == |lasts| == BUCKETS
  {
    && (forall i :: 0 <= i < m && i < BUCKETS ==> (counts[i], lasts[i]) == CounterAt(cal, p, list, i, k1))
    && (forall i :: m <= i < BUCKETS ==> (counts[i], lasts[i]) == CounterAt(cal, p, list, i, k))
  }

  /** The i-th counter after k snapshots. */
  ghost function CounterAt(cal: Calendar, p: Policy, list: seq<Snapshot>, i: nat, k: nat): (int, int)
    requires p.Valid() && k <= |list| && i < BUCKETS
  {
    After(Values(cal, i, list), p.counts[i], k)
  }

  lemma CounterStep(cal: Calendar, p: Policy, list: seq<Snapshot>, i: nat, k: nat)
    requires p.Valid() && k < |list| && i < BUCKETS
    ensures var val, (count, last) := Bucker(cal, i, list[k].time, k), CounterAt(cal, p, list, i, k);
            var takes := count > 0 && val != last;
            && CounterAt(cal, p, list, i, k + 1) == (if takes then (count - 1, val) else (count, last))
            && CountMatches(cal, p, list, k, i + 1) ==
               CountMatches(cal, p, list, k, i) + (if takes then [Counted(i)] else [])
  {
    hide Bucker;
  }

  /** Shows one more snapshot to all counters. */
  method UpdateCounters(cal: Calendar, p: Policy, list: seq<Snapshot>, k: nat, counts: array<int>, lasts: array<int>)
    returns (matches: seq<Match>)
    requires p.Valid() && k < |list| && counts.Length == lasts.Length == BUCKETS && counts != lasts
    requires CountersAt(cal, p, list, k, counts[..], lasts[..], 0, k)
    modifies counts, lasts
    ensures CountersAt(cal, p, list, k, counts[..], lasts[..], BUCKETS, k + 1)
    ensures matches == CountMatches(cal, p, list, k, BUCKETS)
  {
    hide Bucker;
    hide CounterAt;
    hide CountMatches;
    matches := [];
    NoCounts(cal, p, list, k);
    for i := 0 to BUCKETS
      invariant CountersAt(cal, p, list, k, counts[..], lasts[..], i, k + 1)
      invariant matches == CountMatches(cal, p, list, k, i)
    {
      assert (counts[..][i], lasts[..][i]) == CounterAt(cal, p, list, i, k);
      CounterStep(cal, p, list, i, k);
      if counts[i] > 0 {
        var val := Bucker(cal, i, list[k].time, k);
        if val != lasts[i] {
          lasts[i] := val;
          counts[i] := counts[i] - 1;
          matches := matches + [Counted(i)];
        }
      }
    }
  }

  ghost predicate WithinAt(cal: Calendar, p: Policy, latest: int, list: seq<Snapshot>, k: nat, lasts: seq<int>, m: nat,
                           k1: nat)
    requires p.Valid() && k <= |list| && k1 <= |list| && |lasts| == WITHIN_BUCKETS
  {
    && (forall i :: 0 <= i < m && i < WITHIN_BUCKETS ==> lasts[i] == LastOf(cal, p, latest, list, i, k1))
    && (forall i :: m <= i < WITHIN_BUCKETS ==> lasts[i] == LastOf(cal, p, latest, list, i, k))
  }

  /** The last period that the i-th duration took a snapshot from. */
  ghost function LastOf(cal: Calendar, p: Policy, latest: int, list: seq<Snapshot>, i: nat, k: nat): int
    requires p.Valid() && k <= |list| && i < WITHIN_BUCKETS
  {
    LastWithin(Values(cal, i + 1, list), RecentOnes(cal, p.withins[i], latest, list), k)
  }

  lemma LastOfStep(cal: Calendar, p: Policy, latest: int, list: seq<Snapshot>, i: nat, k: nat)
    requires p.Valid() && k < |list| && i < WITHIN_BUCKETS
    ensures var val, last := Bucker(cal, i + 1, list[k].time, k), LastOf(cal, p, latest, list, i, k);
            var takes := Recent(cal, p.withins[i], latest, list[k].time) && val != last;
            && LastOf(cal, p, latest, list, i, k + 1) == (if takes then val else last)
            && WithinMatches(cal, p, latest, list, k, i + 1) ==
               WithinMatches(cal, p, latest, list, k, i) + (if takes then [CountedWithin(i)] else [])
  {
    hide Bucker;
    hide Recent;
  }

  /** Shows one more snapshot to all durations. */
  method UpdateWithin(cal: Calendar, p: Policy, latest: int, list: seq<Snapshot>, k: nat, lasts: array<int>)
    returns (matches: seq<Match>)
    requires p.Valid() && k < |list| && lasts.Length == WITHIN_BUCKETS
    requires WithinAt(cal, p, latest, list, k, lasts[..], 0, k)
    modifies lasts
    ensures WithinAt(cal, p, latest, list, k, lasts[..], WITHIN_BUCKETS, k + 1)
    ensures matches == WithinMatches(cal, p, latest, list, k, WITHIN_BUCKETS)
  {
    hide Bucker;
    hide LastOf;
    hide Recent;
    hide WithinMatches;
    matches := [];
    NoMatches(cal, p, latest, list, k);
    for i := 0 to WITHIN_BUCKETS
      invariant WithinAt(cal, p, latest, list, k, lasts[..], i, k + 1)
      invariant matches == WithinMatches(cal, p, latest, list, k, i)
    {
      assert lasts[..][i] == LastOf(cal, p, latest, list, i, k);
      LastOfStep(cal, p, latest, list, i, k);
      if Recent(cal, p.withins[i], latest, list[k].time) {
        var val := Bucker(cal, i + 1, list[k].time, k);
        if val != lasts[i] {
          lasts[i] := val;
          matches := matches + [CountedWithin(i)];
        }
      }
    }
  }

  lemma NoCounts(cal: Calendar, p: Policy, list: seq<Snapshot>, k: nat)
    requires p.Valid() && k < |list|
    ensures CountMatches(cal, p, list, k, 0) == []
  {
  }

  lemma NoMatches(cal: Calendar, p: Policy, latest: int, list: seq<Snapshot>, k: nat)
    requires p.Valid() && k < |list|
    ensures WithinMatches(cal, p, latest, list, k, 0) == []
  {
  }

  method TagReasons(lists: seq<seq<string>>, tags: seq<string>) returns (matches: seq<Match>)
    ensures matches == TagMatches(lists, tags)
  {
    hide HasAll;
    matches := [];
    for i := 0 to |lists|
      invariant matches == TagMatches(lists[..i], tags)
    {
      assert lists[..i + 1][..i] == lists[..i];
      var has := HasTags(tags, lists[i]);
      if has {
        matches := matches + [HasTagList(lists[i])];
      }
    }
    assert lists[..|lists|] == lists;
  }

  /** Puts a snapshot into its place, newest first. */
  method InsertSorted(list: seq<Snapshot>, sn: Snapshot) returns (sorted: seq<Snapshot>)
    requires NewestFirst(list)
    ensures NewestFirst(sorted) && multiset(sorted) == multiset(list) + multiset{sn}
  {
    hide NewestFirst;
    var i := 0;
    while i < |list| && list[i].time >= sn.time
      invariant i <= |list| && forall j :: 0 <= j < i ==> list[j].time >= sn.time
    {
      i := i + 1;
    }
    sorted := list[..i] + [sn] + list[i..];
    Inserted(list, i, sn);
  }

  lemma Inserted(list: seq<Snapshot>, i: nat, sn: Snapshot)
    requires NewestFirst(list) && i <= |list| && (forall j :: 0 <= j < i ==> list[j].time >= sn.time)
    requires i < |list| ==> list[i].time <= sn.time
    ensures NewestFirst(list[..i] + [sn] + list[i..])
    ensures multiset(list[..i] + [sn] + list[i..]) == multiset(list) + multiset{sn}
  {
    MultisetInsert(list, i, sn);
    var sorted := list[..i] + [sn] + list[i..];
    forall j, k | 0 <= j < k < |sorted| ensures sorted[j].time >= sorted[k].time {
      InsertedAt(list, i, sn, j);
      InsertedAt(list, i, sn, k);
    }
  }

  lemma InsertedAt(list: seq<Snapshot>, i: nat, sn: Snapshot, k: nat)
    requires i <= |list| && k <= |list|
    ensures (list[..i] + [sn] + list[i..])[k] == if k < i then list[k] else if k == i then sn else list[k - 1]
  {
  }

  method SortNewestFirst(list: seq<Snapshot>) returns (sorted: seq<Snapshot>)
    ensures NewestFirst(sorted) && multiset(sorted) == multiset(list)
  {
    sorted := [];
    for i := 0 to |list|
      invariant NewestFirst(sorted) && multiset(sorted) == multiset(list[..i])
    {
      sorted := InsertSorted(sorted, list[i]);
      assert list[..i + 1] == list[..i] + [list[i]];
    }
    assert list[..|list|] == list;
  }

  /** The time of the latest snapshot that is not in the future. */
  ghost predicate IsLatest(cal: Calendar, list: seq<Snapshot>, now: int, latest: int) {
    && (latest == cal.zero || exists k :: 0 <= k < |list| && list[k].time == latest < now)
    && latest >= cal.zero && forall k :: 0 <= k < |list| && list[k].time < now ==> list[k].time <= latest
  }

  method FindLatestTimestamp(cal: Calendar, list: seq<Snapshot>, now: int) returns (latest: int)
    requires list != []
    ensures IsLatest(cal, list, now, latest)
  {
    latest := cal.zero;
    for k := 0 to |list|
      invariant latest == cal.zero || exists j :: 0 <= j < k && list[j].time == latest < now
      invariant latest >= cal.zero && forall j :: 0 <= j < k && list[j].time < now ==> list[j].time <= latest
    {
      if list[k].time > latest && list[k].time < now {
        latest := list[k].time;
      }
    }
  }

  ghost predicate AppliedTo(cal: Calendar, p: Policy, latest: int, list: seq<Snapshot>, n: nat, keep: seq<Snapshot>,
                            remove: seq<Snapshot>, reasons: seq<Reason>)
    requires p.Valid() && n <= |list|
  {
    && keep == Picked(cal, p, latest, list, n, true) && remove == Picked(cal, p, latest, list, n, false)
    && reasons == ReasonsFor(cal, p, latest, list, n)
  }

  /** Applies a policy that is not empty to a sorted list. */
  method Apply(cal: Calendar, p: Policy, latest: int, list: seq<Snapshot>)
    returns (keep: seq<Snapshot>, remove: seq<Snapshot>, reasons: seq<Reason>)
    requires p.Valid()
    ensures AppliedTo(cal, p, latest, list, |list|, keep, remove, reasons)
  {
    hide CountersAt;
    hide WithinAt;
    hide Recent;
    hide TagMatches;
    hide CountMatches;
    hide WithinMatches;
    hide Counters;
    keep, remove, reasons := [], [], [];
    var counts := new int[BUCKETS](i requires 0 <= i < BUCKETS && |p.counts| == BUCKETS => p.counts[i]);
    var lasts := new int[BUCKETS](_ => -1);
    var lastsWithin := new int[WITHIN_BUCKETS](_ => -1);
    CountersStart(cal, p, latest, list, counts[..], lasts[..], lastsWithin[..]);
    for k := 0 to |list|
      invariant AppliedTo(cal, p, latest, list, k, keep, remove, reasons)
      invariant CountersAt(cal, p, list, k, counts[..], lasts[..], 0, k)
      invariant WithinAt(cal, p, latest, list, k, lastsWithin[..], 0, k)
    {
      var cur := list[k];
      var tagged := TagReasons(p.tags, cur.tags);
      var within := if Recent(cal, p.within, latest, cur.time) then [Within] else [];
      var counted := UpdateCounters(cal, p, list, k, counts, lasts);
      var countedWithin := UpdateWithin(cal, p, latest, list, k, lastsWithin);
      CountersNext(cal, p, latest, list, k, counts[..], lasts[..], lastsWithin[..]);
      var matches := tagged + within + counted + countedWithin;
      assert matches == Matches(cal, p, latest, list, k);
      if matches != [] {
        keep := keep + [cur];
        reasons := reasons + [Reason(cur, matches, counts[..])];
      } else {
        remove := remove + [cur];
      }
    }
  }

  lemma CountersStart(cal: Calendar, p: Policy, latest: int, list: seq<Snapshot>, counts: seq<int>, lasts: seq<int>,
                      within: seq<int>)
    requires p.Valid() && counts == p.counts && |lasts| == BUCKETS && |within| == WITHIN_BUCKETS
    requires (forall i :: 0 <= i < BUCKETS ==> lasts[i] == -1)
             && forall i :: 0 <= i < WITHIN_BUCKETS ==> within[i] == -1
    ensures CountersAt(cal, p, list, 0, counts, lasts, 0, 0) && WithinAt(cal, p, latest, list, 0, within, 0, 0)
  {
  }

  lemma CountersNext(cal: Calendar, p: Policy, latest: int, list: seq<Snapshot>, k: nat, counts: seq<int>,
                     lasts: seq<int>, within: seq<int>)
    requires p.Valid() && k < |list| && |counts| == |lasts| == BUCKETS && |within| == WITHIN_BUCKETS
    requires CountersAt(cal, p, list, k, counts, lasts, BUCKETS, k + 1)
    requires WithinAt(cal, p, latest, list, k, within, WITHIN_BUCKETS, k + 1)
    ensures CountersAt(cal, p, list, k + 1, counts, lasts, 0, k + 1) && counts == Counters(cal, p, list, k + 1)
    ensures WithinAt(cal, p, latest, list, k + 1, within, 0, k + 1)
  {
    hide After;
    hide LastOf;
  }

  /**
   Applies a policy.  The list is sorted, and then split into the snapshots to keep
   and to remove, both in order; the reasons go with those to keep.
   */
  method ApplyPolicy(cal: Calendar, list: seq<Snapshot>, p: Policy, now: int)
    returns (sorted: seq<Snapshot>, keep: seq<Snapshot>, remove: seq<Snapshot>, reasons: seq<Reason>, ghost latest: int)
    requires p.Valid()
    ensures NewestFirst(sorted) && multiset(sorted) == multiset(list)
    ensures p.Empty() ==> keep == sorted && remove == [] && |reasons| == |keep| &&
                          forall k :: 0 <= k < |keep| ==>
                            reasons[k].snapshot == keep[k] && reasons[k].matches == [PolicyEmpty]
    ensures !p.Empty() ==> AppliedTo(cal, p, latest, sorted, |sorted|, keep, remove, reasons)
    ensures !p.Empty() && list != [] ==> IsLatest(cal, sorted, now, latest)
  {
    hide AppliedTo;
    hide IsLatest;
    sorted := SortNewestFirst(list);
    keep, remove, reasons, latest := sorted, [], [], cal.zero;
    if p.Empty() {
      for k := 0 to |sorted|
        invariant |reasons| == k
        invariant forall j :: 0 <= j < k ==> reasons[j].snapshot == sorted[j] && reasons[j].matches == [PolicyEmpty]
      {
        reasons := reasons + [Reason(sorted[k], [PolicyEmpty], [])];
      }
      return;
    }
    if |sorted| == 0 {
      NothingToDo(cal, p, latest, sorted);
      return;
    }
    var newest := FindLatestTimestamp(cal, sorted, now);
    latest := newest;
    keep, remove, reasons := Apply(cal, p, newest, sorted);
  }

  lemma NothingToDo(cal: Calendar, p: Policy, latest: int, list: seq<Snapshot>)
    requires p.Valid() && list == []
    ensures AppliedTo(cal, p, latest, list, |list|, list, [], [])
  {
  }

  // ---------------------------------------------------------------- what is kept

  ghost predicate Tagged(p: Policy, sn: Snapshot) {
    exists l :: l in p.tags && HasAll(sn.tags, l)
  }

  ghost predicate TakenBy(cal: Calendar, p: Policy, list: seq<Snapshot>, k: nat, i: nat)
    requires p.Valid() && k < |list| && i < BUCKETS
  {
    Takes(Values(cal, i, list), p.counts[i], k)
  }

  ghost predicate TakenWithin(cal: Calendar, p: Policy, latest: int, list: seq<Snapshot>, k: nat, i: nat)
    requires p.Valid() && k < |list| && i < WITHIN_BUCKETS
  {
    TakesWithin(Values(cal, i + 1, list), RecentOnes(cal, p.withins[i], latest, list), k)
  }

  lemma {:induction false} TagMatchesSome(lists: seq<seq<string>>, tags: seq<string>)
    ensures TagMatches(lists, tags) != [] <==> exists l :: l in lists && HasAll(tags, l)
  {
    hide HasAll;
    if lists != [] {
      var init, last := lists[..|lists| - 1], lists[|lists| - 1];
      TagMatchesSome(init, tags);
      assert lists == init + [last];
      assert last in lists && forall l :: l in lists <==> l in init || l == last;
    }
  }

  lemma {:induction false} CountMatchesSome(cal: Calendar, p: Policy, list: seq<Snapshot>, k: nat, m: nat)
    requires p.Valid() && k < |list| && m <= BUCKETS
    ensures CountMatches(cal, p, list, k, m) != [] <==> exists i :: 0 <= i < m && TakenBy(cal, p, list, k, i)
  {
    hide Takes;
    if m > 0 {
      CountMatchesSome(cal, p, list, k, m - 1);
      if TakenBy(cal, p, list, k, m - 1) {
        assert 0 <= m - 1 < m;
      }
    }
  }

  lemma {:induction false} WithinMatchesSome(cal: Calendar, p: Policy, latest: int, list: seq<Snapshot>, k: nat, m: nat)
    requires p.Valid() && k < |list| && m <= WITHIN_BUCKETS
    ensures WithinMatches(cal, p, latest, list, k, m) != [] <==>
            exists i :: 0 <= i < m && TakenWithin(cal, p, latest, list, k, i)
  {
    hide TakesWithin;
    if m > 0 {
      WithinMatchesSome(cal, p, latest, list, k, m - 1);
      if TakenWithin(cal, p, latest, list, k, m - 1) {
        assert 0 <= m - 1 < m;
      }
    }
  }

  lemma TakenByMeaning(cal: Calendar, p: Policy, list: seq<Snapshot>, k: nat, i: nat)
    requires p.Valid() && cal.Lawful() && NewestFirst(list) && k < |list| && i < BUCKETS
    ensures TakenBy(cal, p, list, k, i) <==> NewestOfSeen(Values(cal, i, list), p.counts[i], k)
  {
    hide NewestOfSeen;
    hide Takes;
    hide Bucker;
    ValuesGrouped(cal, i, list);
    TakesMeaning(Values(cal, i, list), p.counts[i], k);
  }

  lemma TakenWithinMeaning(cal: Calendar, p: Policy, latest: int, list: seq<Snapshot>, k: nat, i: nat)
    requires p.Valid() && cal.Lawful() && NewestFirst(list) && k < |list| && i < WITHIN_BUCKETS
    ensures TakenWithin(cal, p, latest, list, k, i) <==>
            Recent(cal, p.withins[i], latest, list[k].time) && NewestSeen(Values(cal, i + 1, list), k)
  {
    hide TakesWithin;
    hide Bucker;
    ValuesGrouped(cal, i + 1, list);
    TakesWithinMeaning(Values(cal, i + 1, list), RecentOnes(cal, p.withins[i], latest, list), k);
  }

  /**
   A snapshot is kept exactly if it has wanted tags, or is recent, or is the newest
   of one of the most recent periods seen by some counter, or the newest of a period
   within some duration.  This is so for all lists.
   */
  lemma KeptMeaning(cal: Calendar, p: Policy, latest: int, list: seq<Snapshot>, k: nat)
    requires p.Valid() && cal.Lawful() && NewestFirst(list) && k < |list|
    ensures Kept(cal, p, latest, list, k) <==>
            || Tagged(p, list[k]) || Recent(cal, p.within, latest, list[k].time)
            || (exists i :: 0 <= i < BUCKETS && NewestOfSeen(Values(cal, i, list), p.counts[i], k))
            || (exists i :: 0 <= i < WITHIN_BUCKETS && Recent(cal, p.withins[i], latest, list[k].time)
                            && NewestSeen(Values(cal, i + 1, list), k))
  {
    hide TagMatches;
    hide CountMatches;
    hide WithinMatches;
    hide TakenBy;
    hide TakenWithin;
    hide NewestOfSeen;
    hide NewestSeen;
    hide Recent;
    hide Bucker;
    TagMatchesSome(p.tags, list[k].tags);
    CountMatchesSome(cal, p, list, k, BUCKETS);
    WithinMatchesSome(cal, p, latest, list, k, WITHIN_BUCKETS);
    forall i | 0 <= i < BUCKETS
      ensures TakenBy(cal, p, list, k, i) <==> NewestOfSeen(Values(cal, i, list), p.counts[i], k)
    {
      TakenByMeaning(cal, p, list, k, i);
    }
    forall i | 0 <= i < WITHIN_BUCKETS
      ensures TakenWithin(cal, p, latest, list, k, i) <==>
              Recent(cal, p.withins[i], latest, list[k].time) && NewestSeen(Values(cal, i + 1, list), k)
    {
      TakenWithinMeaning(cal, p, latest, list, k, i);
    }
  }

  /** The newest snapshot is not from the year -1, or the policy does not ask for its year. */
  ghost predicate YearSeen(cal: Calendar, p: Policy, latest: int, list: seq<Snapshot>)
    requires p.Valid()
  {
    list == [] || cal.year(list[0].time) != -1
    || (p.counts[YEARLY] <= 0 && !Recent(cal, p.withins[YEARLY - 1], latest, list[0].time))
  }

  /** No other period has the number -1. */
  lemma OnlyYear(cal: Calendar, bucket: nat, t: int)
    requires cal.Lawful() && bucket <= YEARLY
    ensures Bucker(cal, bucket, t, 0) == -1 <==> bucket == YEARLY && cal.year(t) == -1
  {
    assert cal.FieldsInRange(t);
  }

  /** Every counter takes the newest snapshots of its most recent periods, and so does every duration. */
  ghost predicate AllExact(cal: Calendar, p: Policy, latest: int, list: seq<Snapshot>)
    requires p.Valid()
  {
    && (forall i :: 0 <= i < BUCKETS ==> CountExact(cal, p, list, i))
    && (forall i :: 0 <= i < WITHIN_BUCKETS ==> WithinExact(cal, p, latest, list, i))
  }

  ghost predicate CountExact(cal: Calendar, p: Policy, list: seq<Snapshot>, i: nat)
    requires p.Valid() && i < BUCKETS
  {
    var vals := Values(cal, i, list);
    forall k :: 0 <= k < |vals| ==> (Takes(vals, p.counts[i], k) <==> NewestOfRecent(vals, p.counts[i], k))
  }

  ghost predicate WithinExact(cal: Calendar, p: Policy, latest: int, list: seq<Snapshot>, i: nat)
    requires p.Valid() && i < WITHIN_BUCKETS
  {
    var vals, recent := Values(cal, i + 1, list), RecentOnes(cal, p.withins[i], latest, list);
    forall k :: 0 <= k < |vals| ==> (TakesWithin(vals, recent, k) <==> recent[k] && vals[k] !in vals[..k])
  }

  lemma CountExactly(cal: Calendar, p: Policy, list: seq<Snapshot>, i: nat)
    requires p.Valid() && cal.Lawful() && NewestFirst(list) && i < BUCKETS
    ensures CountExact(cal, p, list, i) <==>
            list == [] || p.counts[i] <= 0 || i != YEARLY || cal.year(list[0].time) != -1
  {
    hide NewestOfRecent;
    hide Takes;
    hide Bucker;
    ValuesGrouped(cal, i, list);
    TakesExactly(Values(cal, i, list), p.counts[i]);
    if list != [] {
      OnlyYear(cal, i, list[0].time);
    }
  }

  lemma WithinExactly(cal: Calendar, p: Policy, latest: int, list: seq<Snapshot>, i: nat)
    requires p.Valid() && cal.Lawful() && NewestFirst(list) && i < WITHIN_BUCKETS
    ensures WithinExact(cal, p, latest, list, i) <==>
            || list == [] || !Recent(cal, p.withins[i], latest, list[0].time)
            || i + 1 != YEARLY || cal.year(list[0].time) != -1
  {
    hide TakesWithin;
    hide Bucker;
    ValuesGrouped(cal, i + 1, list);
    TakesWithinExactly(Values(cal, i + 1, list), RecentOnes(cal, p.withins[i], latest, list));
    if list != [] {
      OnlyYear(cal, i + 1, list[0].time);
    }
  }

  /** All counters and durations are exact if and only if the year -1 does not come up. */
  lemma ExactlyYearSeen(cal: Calendar, p: Policy, latest: int, list: seq<Snapshot>)
    requires p.Valid() && cal.Lawful() && NewestFirst(list)
    ensures AllExact(cal, p, latest, list) <==> YearSeen(cal, p, latest, list)
  {
    hide CountExact;
    hide WithinExact;
    hide Recent;
    forall i | 0 <= i < BUCKETS
      ensures CountExact(cal, p, list, i) <==>
              list == [] || p.counts[i] <= 0 || i != YEARLY || cal.year(list[0].time) != -1
    {
      CountExactly(cal, p, list, i);
    }
    forall i | 0 <= i < WITHIN_BUCKETS
      ensures WithinExact(cal, p, latest, list, i) <==>
              || list == [] || !Recent(cal, p.withins[i], latest, list[0].time)
              || i + 1 != YEARLY || cal.year(list[0].time) != -1
    {
      WithinExactly(cal, p, latest, list, i);
    }
    assert CountExact(cal, p, list, YEARLY) && WithinExact(cal, p, latest, list, YEARLY - 1) ==>
        YearSeen(cal, p, latest, list);
  }

  /** Then a snapshot is kept exactly for its tags or age, or as the newest of a recent period. */
  lemma KeptExactly(cal: Calendar, p: Policy, latest: int, list: seq<Snapshot>, k: nat)
    requires p.Valid() && cal.Lawful() && NewestFirst(list) && YearSeen(cal, p, latest, list) && k < |list|
    ensures Kept(cal, p, latest, list, k) <==>
            || Tagged(p, list[k]) || Recent(cal, p.within, latest, list[k].time)
            || (exists i :: 0 <= i < BUCKETS && NewestOfRecent(Values(cal, i, list), p.counts[i], k))
            || (exists i :: 0 <= i < WITHIN_BUCKETS && Recent(cal, p.withins[i], latest, list[k].time)
                            && Values(cal, i + 1, list)[k] !in Values(cal, i + 1, list)[..k])
  {
    hide TagMatches;
    hide CountMatches;
    hide WithinMatches;
    hide Takes;
    hide TakesWithin;
    hide NewestOfRecent;
    hide Recent;
    hide Bucker;
    hide YearSeen;
    TagMatchesSome(p.tags, list[k].tags);
    CountMatchesSome(cal, p, list, k, BUCKETS);
    WithinMatchesSome(cal, p, latest, list, k, WITHIN_BUCKETS);
    ExactlyYearSeen(cal, p, latest, list);
    forall i | 0 <= i < BUCKETS
      ensures TakenBy(cal, p, list, k, i) <==> NewestOfRecent(Values(cal, i, list), p.counts[i], k)
    {
      assert CountExact(cal, p, list, i);
    }
    forall i | 0 <= i < WITHIN_BUCKETS
      ensures TakenWithin(cal, p, latest, list, k, i) <==>
              && Recent(cal, p.withins[i], latest, list[k].time)
              && Values(cal, i + 1, list)[k] !in Values(cal, i + 1, list)[..k]
    {
      assert WithinExact(cal, p, latest, list, i);
    }
  }

  // ---------------------------------------------------------------- applying a policy twice

  /** No duration reaches back less far from `latest1` than from `latest`. */
  ghost predicate ReachesBack(cal: Calendar, p: Policy, latest: int, latest1: int) {
    && (!p.within.Zero() ==> cal.back(latest1, p.within) <= cal.back(latest, p.within))
    && (forall i :: 0 <= i < |p.withins| && !p.withins[i].Zero() ==>
          cal.back(latest1, p.withins[i]) <= cal.back(latest, p.withins[i]))
  }

  /** The positions of the snapshots, among the first n, that are kept. */
  ghost function Positions(cal: Calendar, p: Policy, latest: int, list: seq<Snapshot>, n: nat): seq<nat>
    requires p.Valid() && n <= |list|
  {
    if n == 0 then []
    else
      var rest := Positions(cal, p, latest, list, n - 1);
      if Kept(cal, p, latest, list, n - 1) then rest + [n - 1] else rest
  }

  /** `at` says where the members of `keep` are in the list. */
  ghost predicate Embeds(list: seq<Snapshot>, keep: seq<Snapshot>, at: seq<nat>) {
    && |at| == |keep| && (forall j :: 0 <= j < |at| ==> at[j] < |list| && list[at[j]] == keep[j])
    && (forall i, j :: 0 <= i < j < |at| ==> at[i] < at[j])
  }

  lemma {:induction false} PositionsEmbed(cal: Calendar, p: Policy, latest: int, list: seq<Snapshot>, n: nat)
    requires p.Valid() && n <= |list|
    ensures var at := Positions(cal, p, latest, list, n);
            && Embeds(list, Picked(cal, p, latest, list, n, true), at)
            && (forall j :: 0 <= j < |at| ==> at[j] < n && Kept(cal, p, latest, list, at[j]))
            && (n > 0 && Kept(cal, p, latest, list, 0) ==> at != [] && at[0] == 0)
  {
    hide Kept;
    if n > 0 {
      PositionsEmbed(cal, p, latest, list, n - 1);
    }
  }

  lemma {:induction false} EmbedsLater(list: seq<Snapshot>, keep: seq<Snapshot>, at: seq<nat>, j: nat)
    requires Embeds(list, keep, at) && j < |at|
    ensures j <= at[j]
  {
    if j > 0 {
      EmbedsLater(list, keep, at, j - 1);
    }
  }

  /** In a shorter list a snapshot is still the newest of its period, unless the very newest in period -1. */
  lemma StillNewest(cal: Calendar, list: seq<Snapshot>, keep: seq<Snapshot>, at: seq<nat>, i: nat, j: nat)
    requires Embeds(list, keep, at) && 0 < i && j < |keep| && NewestSeen(Values(cal, i, list), at[j])
    requires Values(cal, i, list)[0] != -1 ==> at[0] == 0
    ensures NewestSeen(Values(cal, i, keep), j)
  {
    hide Bucker;
    var vals, vals1 := Values(cal, i, list), Values(cal, i, keep);
    ValuesKept(cal, list, keep, at, i);
    forall l | 0 <= l < j ensures vals1[l] != vals1[j] {
      assert vals[..at[j]][at[l]] == vals[at[l]];
    }
    if j == 0 && vals[0] == -1 {
      NewestIsSeen(vals, at[0]);
    }
  }

  lemma ValuesKept(cal: Calendar, list: seq<Snapshot>, keep: seq<Snapshot>, at: seq<nat>, i: nat)
    requires Embeds(list, keep, at) && 0 < i
    ensures forall l :: 0 <= l < |keep| ==> Values(cal, i, keep)[l] == Values(cal, i, list)[at[l]]
  {
    hide Bucker;
    forall l | 0 <= l < |keep| ensures Values(cal, i, keep)[l] == Values(cal, i, list)[at[l]] {
      BuckerIgnores(cal, i, keep[l].time, l, at[l]);
    }
  }

  /** No more periods are seen before it. */
  lemma FewerSeen(cal: Calendar, list: seq<Snapshot>, keep: seq<Snapshot>, at: seq<nat>, i: nat, j: nat)
    requires Embeds(list, keep, at) && 0 < i && j < |keep| && Grouped(Values(cal, i, list))
    ensures var vals, vals1 := Values(cal, i, list), Values(cal, i, keep);
            |Distinct(vals1[..j]) - Unseen(vals1)| <= |Distinct(vals[..at[j]]) - Unseen(vals)|
  {
    hide Bucker;
    var vals, vals1 := Values(cal, i, list), Values(cal, i, keep);
    ValuesKept(cal, list, keep, at, i);
    forall x | x in Distinct(vals1[..j]) - Unseen(vals1) ensures x in Distinct(vals[..at[j]]) - Unseen(vals) {
      var l :| 0 <= l < j && vals1[..j][l] == x;
      assert vals[..at[j]][at[l]] == x;
      assert vals[0] == vals[at[l]] && at[0] > 0 && l > 0 ==> vals[at[0]] == vals[at[l]];
    }
    Subset(Distinct(vals1[..j]) - Unseen(vals1), Distinct(vals[..at[j]]) - Unseen(vals));
  }

  lemma NothingUnseen(vals: seq<int>, seen: set<int>)
    requires vals != [] && vals[0] != -1
    ensures seen - Unseen(vals) == seen
  {
  }

  /** Among the last ones, a snapshot moves only forward. */
  lemma StillLast(cal: Calendar, list: seq<Snapshot>, keep: seq<Snapshot>, at: seq<nat>, n: int, j: nat)
    requires Embeds(list, keep, at) && j < |keep| && NewestOfSeen(Values(cal, 0, list), n, at[j])
    ensures NewestOfSeen(Values(cal, 0, keep), n, j)
  {
    hide Bucker;
    hide Distinct;
    var vals, vals1 := Values(cal, 0, list), Values(cal, 0, keep);
    BuckerZero(cal, list);
    BuckerZero(cal, keep);
    EmbedsLater(list, keep, at, j);
    forall x | x in vals1[..j] ensures x in vals[..at[j]] && x != vals1[j] {
      assert vals[..at[j]][x] == x;
    }
    FewerDistinct(vals1[..j], vals[..at[j]]);
    NothingUnseen(vals1, Distinct(vals1[..j]));
    NothingUnseen(vals, Distinct(vals[..at[j]]));
  }

  lemma FewerDistinct(a: seq<int>, b: seq<int>)
    requires forall x :: x in a ==> x in b
    ensures |Distinct(a)| <= |Distinct(b)|
  {
    forall x | x in Distinct(a) ensures x in Distinct(b) {
      var k :| 0 <= k < |a| && a[k] == x;
      assert a[k] in b;
    }
    Subset(Distinct(a), Distinct(b));
  }

  lemma {:induction false} Subset<T>(a: set<T>, b: set<T>)
    requires a <= b
    ensures |a| <= |b|
  {
    if a != {} {
      var x :| x in a;
      Subset(a - {x}, b - {x});
    }
  }

  /** A counter that takes from a list takes its newest snapshot first, if it sees it. */
  lemma FirstTaken(cal: Calendar, p: Policy, latest: int, list: seq<Snapshot>, i: nat, k: nat)
    requires p.Valid() && cal.Lawful() && NewestFirst(list) && k < |list|
    requires i < BUCKETS && NewestOfSeen(Values(cal, i, list), p.counts[i], k) && Values(cal, i, list)[0] != -1
    ensures Kept(cal, p, latest, list, 0)
  {
    hide Kept;
    hide Bucker;
    var vals := Values(cal, i, list);
    assert vals[..0] == [] && Distinct(vals[..0]) == {};
    assert NewestOfSeen(vals, p.counts[i], 0);
    KeptMeaning(cal, p, latest, list, 0);
  }

  lemma FirstWithin(cal: Calendar, p: Policy, latest: int, list: seq<Snapshot>, i: nat, k: nat)
    requires p.Valid() && cal.Lawful() && NewestFirst(list) && k < |list|
    requires i < WITHIN_BUCKETS && Recent(cal, p.withins[i], latest, list[k].time)
    requires Values(cal, i + 1, list)[0] != -1
    ensures Kept(cal, p, latest, list, 0)
  {
    hide Kept;
    hide Bucker;
    assert NewestSeen(Values(cal, i + 1, list), 0);
    KeptMeaning(cal, p, latest, list, 0);
  }

  /** A snapshot that a counter took is taken again. */
  lemma CountedAgain(cal: Calendar, p: Policy, latest: int, latest1: int, list: seq<Snapshot>, keep: seq<Snapshot>,
                     at: seq<nat>, j: nat, i: nat)
    requires p.Valid() && cal.Lawful() && NewestFirst(list) && Embeds(list, keep, at) && j < |keep|
    requires list != [] && Kept(cal, p, latest, list, 0) ==> at[0] == 0
    requires i < BUCKETS && NewestOfSeen(Values(cal, i, list), p.counts[i], at[j])
    ensures Kept(cal, p, latest1, keep, j)
  {
    hide Kept;
    hide Bucker;
    hide Grouped;
    hide Distinct;
    hide Unseen;
    EmbedSorted(list, keep, at);
    if i == 0 {
      StillLast(cal, list, keep, at, p.counts[0], j);
    } else {
      ValuesGrouped(cal, i, list);
      FewerSeen(cal, list, keep, at, i, j);
      if Values(cal, i, list)[0] != -1 {
        FirstTaken(cal, p, latest, list, i, at[j]);
      }
      StillNewest(cal, list, keep, at, i, j);
    }
    assert NewestOfSeen(Values(cal, i, keep), p.counts[i], j);
    KeptMeaning(cal, p, latest1, keep, j);
  }

  /** A snapshot that was taken within a duration is taken again. */
  lemma WithinAgain(cal: Calendar, p: Policy, latest: int, latest1: int, list: seq<Snapshot>, keep: seq<Snapshot>,
                    at: seq<nat>, j: nat, i: nat)
    requires p.Valid() && cal.Lawful() && ReachesBack(cal, p, latest, latest1)
    requires NewestFirst(list) && Embeds(list, keep, at) && j < |keep|
    requires list != [] && Kept(cal, p, latest, list, 0) ==> at[0] == 0
    requires i < WITHIN_BUCKETS && Recent(cal, p.withins[i], latest, list[at[j]].time)
    requires NewestSeen(Values(cal, i + 1, list), at[j])
    ensures Kept(cal, p, latest1, keep, j)
  {
    hide Kept;
    hide Bucker;
    EmbedSorted(list, keep, at);
    if Values(cal, i + 1, list)[0] != -1 {
      FirstWithin(cal, p, latest, list, i, at[j]);
    }
    StillNewest(cal, list, keep, at, i + 1, j);
    assert Recent(cal, p.withins[i], latest1, keep[j].time);
    KeptMeaning(cal, p, latest1, keep, j);
  }

  /** Whatever was kept is kept again. */
  lemma KeptAgain(cal: Calendar, p: Policy, latest: int, latest1: int, list: seq<Snapshot>, keep: seq<Snapshot>,
                  at: seq<nat>, j: nat)
    requires p.Valid() && cal.Lawful() && ReachesBack(cal, p, latest, latest1)
    requires NewestFirst(list) && Embeds(list, keep, at) && j < |keep|
    requires list != [] && Kept(cal, p, latest, list, 0) ==> at[0] == 0
    requires Kept(cal, p, latest, list, at[j])
    ensures Kept(cal, p, latest1, keep, j)
  {
    hide Kept;
    hide NewestOfSeen;
    hide NewestSeen;
    hide Bucker;
    KeptMeaning(cal, p, latest, list, at[j]);
    EmbedSorted(list, keep, at);
    if Tagged(p, keep[j]) || Recent(cal, p.within, latest, keep[j].time) {
      KeptMeaning(cal, p, latest1, keep, j);
    } else if i :| 0 <= i < BUCKETS && NewestOfSeen(Values(cal, i, list), p.counts[i], at[j]) {
      CountedAgain(cal, p, latest, latest1, list, keep, at, j, i);
    } else {
      var i :| 0 <= i < WITHIN_BUCKETS && Recent(cal, p.withins[i], latest, list[at[j]].time)
               && NewestSeen(Values(cal, i + 1, list), at[j]);
      WithinAgain(cal, p, latest, latest1, list, keep, at, j, i);
    }
  }

  lemma EmbedSorted(list: seq<Snapshot>, keep: seq<Snapshot>, at: seq<nat>)
    requires NewestFirst(list) && Embeds(list, keep, at)
    ensures NewestFirst(keep)
  {
    forall i, j | 0 <= i < j < |keep| ensures keep[i].time >= keep[j].time {
      assert list[at[i]].time >= list[at[j]].time;
    }
  }

  lemma {:induction false} AllKept(cal: Calendar, p: Policy, latest: int, list: seq<Snapshot>, n: nat)
    requires p.Valid() && n <= |list| && forall k :: 0 <= k < n ==> Kept(cal, p, latest, list, k)
    ensures Picked(cal, p, latest, list, n, true) == list[..n] && Picked(cal, p, latest, list, n, false) == []
  {
    hide Kept;
    if n > 0 {
      AllKept(cal, p, latest, list, n - 1);
      assert list[..n] == list[..n - 1] + [list[n - 1]];
    }
  }

  /** A policy applied to what it kept keeps all of it, unless a duration now reaches back less far. */
  lemma Idempotent(cal: Calendar, p: Policy, latest: int, latest1: int, list: seq<Snapshot>)
    requires p.Valid() && cal.Lawful() && ReachesBack(cal, p, latest, latest1) && NewestFirst(list)
    ensures var keep := Picked(cal, p, latest, list, |list|, true);
            && Picked(cal, p, latest1, keep, |keep|, true) == keep
            && Picked(cal, p, latest1, keep, |keep|, false) == []
  {
    hide Kept;
    hide Picked;
    var keep, at := Picked(cal, p, latest, list, |list|, true), Positions(cal, p, latest, list, |list|);
    PositionsEmbed(cal, p, latest, list, |list|);
    forall j | 0 <= j < |keep| ensures Kept(cal, p, latest1, keep, j) {
      KeptAgain(cal, p, latest, latest1, list, keep, at, j);
    }
    AllKept(cal, p, latest1, keep, |keep|);
    assert keep[..|keep|] == keep;
  }

  /** Put to the policy again, what was kept of the list stays as it is. */
  ghost predicate Stays(cal: Calendar, p: Policy, latest: int, latest1: int, list: seq<Snapshot>)
    requires p.Valid()
  {
    var keep := Picked(cal, p, latest, list, |list|, true);
    Picked(cal, p, latest1, keep, |keep|, true) == keep
  }

  ghost predicate OnlyWithin(p: Policy) {
    && p.Valid() && p.tags == [] && (forall i :: 0 <= i < BUCKETS ==> p.counts[i] <= 0)
    && (forall i :: 0 <= i < WITHIN_BUCKETS ==> p.withins[i].Zero())
  }

  /** Nothing else keeps a snapshot then. */
  lemma OnlyRecent(cal: Calendar, p: Policy, latest: int, sn: Snapshot)
    requires cal.Lawful() && OnlyWithin(p)
    ensures Kept(cal, p, latest, [sn], 0) <==> Recent(cal, p.within, latest, sn.time)
  {
    hide Kept;
    hide Bucker;
    hide Distinct;
    KeptMeaning(cal, p, latest, [sn], 0);
  }

  /** For a policy that is only a duration, all lists stay if and only if it reaches back as far. */
  lemma StaysExactly(cal: Calendar, p: Policy, latest: int, latest1: int)
    requires cal.Lawful() && OnlyWithin(p)
    ensures (forall list :: NewestFirst(list) ==> Stays(cal, p, latest, latest1, list))
            <==> ReachesBack(cal, p, latest, latest1)
  {
    hide Kept;
    if ReachesBack(cal, p, latest, latest1) {
      forall list | NewestFirst(list) ensures Stays(cal, p, latest, latest1, list) {
        Idempotent(cal, p, latest, latest1, list);
      }
    } else {
      var sn := Snapshot(cal.back(latest1, p.within), [], "");
      OnlyRecent(cal, p, latest, sn);
      OnlyRecent(cal, p, latest1, sn);
      OnePicked(cal, p, latest, sn);
      OnePicked(cal, p, latest1, sn);
      assert NewestFirst([sn]) && !Stays(cal, p, latest, latest1, [sn]);
    }
  }

  lemma OnePicked(cal: Calendar, p: Policy, latest: int, sn: Snapshot)
    requires p.Valid()
    ensures Picked(cal, p, latest, [sn], 1, true) == if Kept(cal, p, latest, [sn], 0) then [sn] else []
  {
    hide Kept;
    assert Picked(cal, p, latest, [sn], 0, true) == [];
  }

  ghost predicate DistinctTimes(list: seq<Snapshot>) {
    forall i, j :: 0 <= i < j < |list| ==> list[i].time != list[j].time
  }

  lemma SameNewest(a: seq<Snapshot>, b: seq<Snapshot>)
    requires NewestFirst(a) && NewestFirst(b) && multiset(a) == multiset(b) && a != [] && DistinctTimes(a)
    ensures b != [] && a[0] == b[0]
  {
    assert a[0] in multiset(b);
    var i :| 0 <= i < |b| && b[i] == a[0];
    assert b[0] in multiset(a);
    var j :| 0 <= j < |a| && a[j] == b[0];
    assert a[0].time == b[0].time;
  }

  lemma OlderOnes(list: seq<Snapshot>)
    requires list != []
    ensures NewestFirst(list) ==> NewestFirst(list[1..])
    ensures DistinctTimes(list) ==> DistinctTimes(list[1..])
    ensures list == [list[0]] + list[1..] && multiset(list[1..]) == multiset(list) - multiset{list[0]}
  {
    assert list == [list[0]] + list[1..];
  }

  /** With different times there is only one way to sort. */
  lemma {:induction false} SortedUnique(a: seq<Snapshot>, b: seq<Snapshot>)
    requires NewestFirst(a) && NewestFirst(b) && multiset(a) == multiset(b) && DistinctTimes(a)
    ensures a == b
  {
    hide NewestFirst;
    hide DistinctTimes;
    if a == [] {
      assert |multiset(b)| == |b|;
    } else {
      SameNewest(a, b);
      OlderOnes(a);
      OlderOnes(b);
      SortedUnique(a[1..], b[1..]);
    }
  }

  /** Sorted again and put to the policy again, a kept list with different times stays as it is. */
  lemma PolicyStable(cal: Calendar, p: Policy, latest: int, latest1: int, list: seq<Snapshot>, again: seq<Snapshot>)
    requires p.Valid() && cal.Lawful() && ReachesBack(cal, p, latest, latest1)
    requires NewestFirst(list) && DistinctTimes(list)
    requires NewestFirst(again) && multiset(again) == multiset(Picked(cal, p, latest, list, |list|, true))
    ensures Picked(cal, p, latest1, again, |again|, true) == again == Picked(cal, p, latest, list, |list|, true)
  {
    hide Kept;
    hide Picked;
    hide Positions;
    var keep, at := Picked(cal, p, latest, list, |list|, true), Positions(cal, p, latest, list, |list|);
    PositionsEmbed(cal, p, latest, list, |list|);
    EmbedSorted(list, keep, at);
    forall i, j | 0 <= i < j < |keep| ensures keep[i].time != keep[j].time {
      assert list[at[i]].time != list[at[j]].time;
    }
    SortedUnique(keep, again);
    Idempotent(cal, p, latest, latest1, list);
  }
}
