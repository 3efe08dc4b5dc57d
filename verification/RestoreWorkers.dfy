/**
 The download workers of a restore.  Packs are handed out one by one; a worker
 makes the writes that are due from its pack one after the other, and for each of
 them it is a writer that takes the file's lock, opens, writes and closes the file.
 */
module RestoreWorkers {
  import opened Blobs
  import opened Crypto
  import opened Restores
  import opened RestoreRuns
  import FW = FilesWriters

  /** What is restored, and where to. */
  datatype Setting = Setting(e: Env, backend: map<Id, seq<byte>>, idx: Lookup, files: seq<FileInfo>,
                             path: nat -> FW.Path, preallocated: nat -> bool)
  {
    ghost predicate Valid(cfg: FW.Config) {
      && e.key.Sized() && IndexOk(idx)
      && (forall f, g :: 0 <= f < g < |files| ==> path(f) != path(g))
      && (forall f :: 0 <= f < |files| ==> cfg.created(path(f)) == NewFile(files[f].size, preallocated(f)))
    }
  }

  /** The packs to come and those handed out; what every worker still has to write; and all writes planned so far. */
  datatype State = State(waiting: seq<Id>, fetched: seq<Id>, jobs: seq<seq<Write>>, log: seq<Write>, fw: FW.State)

  // ---------------------------------------------------------------- steps

  /** A worker gets the next pack, and the writes due from it, in some order. */
  ghost predicate Fetches(x: Setting, s: State, d: nat, s1: State) {
    && d < |s.jobs| == |s.fw.writers| && s.fw.writers[d].Idle? && s.jobs[d] == [] && s.waiting != []
    && exists more :: Planned(x, s.waiting[0], more) && s1 == Fetched(s, d, more)
  }

  ghost predicate Planned(x: Setting, packId: Id, more: seq<Write>) {
    LoggedPacks(x.e, x.backend, x.idx, x.files, [packId], more)
  }

  function Fetched(s: State, d: nat, more: seq<Write>): State
    requires d < |s.jobs| && s.waiting != []
  {
    s.(waiting := s.waiting[1..], fetched := s.fetched + [s.waiting[0]], jobs := s.jobs[d := more], log := s.log + more)
  }

  /** A worker starts with its next write. */
  ghost predicate Starts(x: Setting, s: State, d: nat, s1: State) {
    && d < |s.jobs| == |s.fw.writers| && s.fw.writers[d].Idle? && s.jobs[d] != []
    && s1 == Started(x, s, d)
  }

  function Started(x: Setting, s: State, d: nat): State
    requires d < |s.jobs| == |s.fw.writers| && s.jobs[d] != []
  {
    var w := s.jobs[d][0];
    s.(jobs := s.jobs[d := s.jobs[d][1..]],
       fw := FW.To(s.fw, d, FW.Entering(x.path(w.file), FW.Piece(w.offset, w.data))))
  }

  /** A worker goes on with its write. */
  ghost predicate GoesOn(cfg: FW.Config, s: State, d: nat, s1: State) {
    && d < |s.jobs| == |s.fw.writers| && !s.fw.writers[d].Idle?
    && FW.Steps(cfg, s.fw, d, s1.fw) && s1 == s.(fw := s1.fw)
  }

  ghost predicate Steps(cfg: FW.Config, x: Setting, s: State, s1: State) {
    exists d :: Fetches(x, s, d, s1) || Starts(x, s, d, s1) || GoesOn(cfg, s, d, s1)
  }

  ghost predicate Initial(cfg: FW.Config, packOrder: seq<Id>, s: State) {
    && FW.Initial(cfg, s.fw) && |s.jobs| == |s.fw.writers| && (forall d :: 0 <= d < |s.jobs| ==> s.jobs[d] == [])
    && s.waiting == packOrder && s.fetched == [] && s.log == []
  }

  ghost predicate Finished(s: State) {
    && s.waiting == [] && (forall d :: 0 <= d < |s.jobs| ==> s.jobs[d] == [])
    && (forall d :: 0 <= d < |s.fw.writers| ==> s.fw.writers[d].Idle?)
  }

  // ---------------------------------------------------------------- every write is in one place

  /** The writer has still to make the write. */
  ghost predicate InFlight(x: Setting, writer: FW.Writer, w: Write) {
    && (writer.Entering? || writer.Acquiring? || writer.Writing?)
    && writer.path == x.path(w.file) && writer.piece == FW.Piece(w.offset, w.data)
  }

  ghost function Pending(x: Setting, job: seq<Write>, writer: FW.Writer, w: Write): nat {
    multiset(job)[w] + One(InFlight(x, writer, w))
  }

  ghost function AllPending(x: Setting, jobs: seq<seq<Write>>, writers: seq<FW.Writer>, w: Write): nat
    requires |jobs| == |writers|
  {
    if jobs == [] then 0
    else
      var last := |jobs| - 1;
      AllPending(x, jobs[..last], writers[..last], w) + Pending(x, jobs[last], writers[last], w)
  }

  lemma {:induction false} PendingUpdate(x: Setting, jobs: seq<seq<Write>>, writers: seq<FW.Writer>, d: nat,
                                         job: seq<Write>, writer: FW.Writer, w: Write)
    requires d < |jobs| == |writers|
    ensures AllPending(x, jobs[d := job], writers[d := writer], w) + Pending(x, jobs[d], writers[d], w) ==
            AllPending(x, jobs, writers, w) + Pending(x, job, writer, w)
  {
    hide Pending;
    var last := |jobs| - 1;
    if d == last {
      assert jobs[d := job][..last] == jobs[..last] && writers[d := writer][..last] == writers[..last];
    } else {
      PendingUpdate(x, jobs[..last], writers[..last], d, job, writer, w);
      assert jobs[d := job][..last] == jobs[..last][d := job];
      assert writers[d := writer][..last] == writers[..last][d := writer];
    }
  }

  lemma {:induction false} NothingPending(x: Setting, jobs: seq<seq<Write>>, writers: seq<FW.Writer>, w: Write)
    requires |jobs| == |writers| && (forall d :: 0 <= d < |jobs| ==> jobs[d] == [])
    requires forall d :: 0 <= d < |writers| ==> writers[d].Idle?
    ensures AllPending(x, jobs, writers, w) == 0
  {
    if jobs != [] {
      NothingPending(x, jobs[..|jobs| - 1], writers[..|jobs| - 1], w);
    }
  }

  ghost function Made(x: Setting, events: seq<FW.Event>, w: Write): nat {
    multiset(LogOf(events, x.path(w.file), w.file))[w]
  }

  /** Every planned write has been made, is being made or waits, and nothing else is written. */
  ghost predicate Conserved(x: Setting, s: State, w: Write) {
    |s.jobs| == |s.fw.writers| &&
    Made(x, s.fw.events, w) + AllPending(x, s.jobs, s.fw.writers, w) == multiset(s.log)[w]
  }

  /** Only files of the restore are written to. */
  ghost predicate Within(x: Setting, jobs: seq<seq<Write>>) {
    forall d, k :: 0 <= d < |jobs| && 0 <= k < |jobs[d]| ==> jobs[d][k].file < |x.files|
  }

  lemma FetchConserves(x: Setting, s: State, d: nat, more: seq<Write>, w: Write)
    requires d < |s.jobs| == |s.fw.writers| && s.jobs[d] == [] && s.waiting != [] && Conserved(x, s, w)
    ensures Conserved(x, Fetched(s, d, more), w)
  {
    hide AllPending;
    hide Made;
    hide InFlight;
    var writer := s.fw.writers[d];
    PendingUpdate(x, s.jobs, s.fw.writers, d, more, writer, w);
    assert s.fw.writers[d := writer] == s.fw.writers;
    assert multiset(s.log + more)[w] == multiset(s.log)[w] + multiset(more)[w];
  }

  lemma StartConserves(cfg: FW.Config, x: Setting, s: State, d: nat, s1: State, w: Write)
    requires x.Valid(cfg) && Starts(x, s, d, s1) && Within(x, s.jobs) && w.file < |x.files| && Conserved(x, s, w)
    ensures Conserved(x, s1, w)
  {
    hide AllPending;
    hide Made;
    var job := s.jobs[d];
    PendingUpdate(x, s.jobs, s.fw.writers, d, job[1..], s1.fw.writers[d], w);
    assert multiset(job)[w] == multiset(job[1..])[w] + One(job[0] == w) by {
      assert job == [job[0]] + job[1..];
    }
    assert InFlight(x, s1.fw.writers[d], w) <==> job[0] == w;
  }

  lemma LogOfPush(events: seq<FW.Event>, last: FW.Event, p: FW.Path, f: nat)
    ensures LogOf(events + [last], p, f) == LogOf(events, p, f)
            + if last.path == p && last.Wrote? then [Write(f, last.piece.offset, last.piece.data)] else []
  {
    assert (events + [last])[..|events|] == events;
  }

  /** A write is made when it is written, and no earlier. */
  lemma PushMade(x: Setting, events: seq<FW.Event>, last: FW.Event, w: Write)
    ensures Made(x, events + [last], w) == Made(x, events, w)
            + One(last.Wrote? && last.path == x.path(w.file) && last.piece == FW.Piece(w.offset, w.data))
  {
    hide LogOf;
    var p := x.path(w.file);
    LogOfPush(events, last, p, w.file);
    if last.Wrote? && last.path == p {
      MultisetPush(LogOf(events, p, w.file), Write(w.file, last.piece.offset, last.piece.data));
    }
  }

  lemma GoMade(cfg: FW.Config, x: Setting, fw: FW.State, d: nat, fw1: FW.State, w: Write)
    requires FW.Steps(cfg, fw, d, fw1) && !fw.writers[d].Idle?
    ensures |fw1.writers| == |fw.writers| && fw1.writers == fw.writers[d := fw1.writers[d]]
    ensures Made(x, fw1.events, w) + One(InFlight(x, fw1.writers[d], w)) ==
            Made(x, fw.events, w) + One(InFlight(x, fw.writers[d], w))
  {
    hide Made;
    hide FW.LockFree;
    hide FW.CanOpen;
    hide FW.Put;
    hide FW.Without;
    var writer := fw.writers[d];
    if writer.Acquiring? {
      PushMade(x, fw.events, if writer.creates then FW.Truncated(writer.path) else FW.Opened(writer.path), w);
    } else if writer.Writing? {
      PushMade(x, fw.events, FW.Wrote(writer.path, writer.piece, writer.handle in fw.open), w);
    }
  }

  lemma GoConserves(cfg: FW.Config, x: Setting, s: State, d: nat, s1: State, w: Write)
    requires GoesOn(cfg, s, d, s1) && Conserved(x, s, w)
    ensures Conserved(x, s1, w)
  {
    hide AllPending;
    hide Made;
    hide InFlight;
    hide FW.Steps;
    GoMade(cfg, x, s.fw, d, s1.fw, w);
    PendingUpdate(x, s.jobs, s.fw.writers, d, s.jobs[d], s1.fw.writers[d], w);
    assert s.jobs[d := s.jobs[d]] == s.jobs;
  }

  // ---------------------------------------------------------------- every run

  ghost predicate Inv(cfg: FW.Config, x: Setting, packOrder: seq<Id>, s: State) {
    && FW.Inv(cfg, s.fw) && (forall p :: OnDisk(cfg, s.fw, p))
    && s.fetched + s.waiting == packOrder && LoggedPacks(x.e, x.backend, x.idx, x.files, s.fetched, s.log)
    && Within(x, s.jobs) && |s.jobs| == |s.fw.writers|
    && (forall w: Write :: w.file < |x.files| ==> Conserved(x, s, w))
  }

  ghost predicate IsRun(cfg: FW.Config, x: Setting, packOrder: seq<Id>, run: seq<State>) {
    && run != [] && Initial(cfg, packOrder, run[0])
    && forall k :: 0 <= k < |run| - 1 ==> Steps(cfg, x, run[k], run[k + 1])
  }

  lemma InitialInv(cfg: FW.Config, x: Setting, packOrder: seq<Id>, s: State)
    requires Initial(cfg, packOrder, s)
    ensures Inv(cfg, x, packOrder, s)
  {
    hide FW.Inv;
    hide LoggedPacks;
    FW.InitialInv(cfg, s.fw);
    NothingLogged(x.e, x.backend, x.idx, x.files);
    forall w: Write ensures Conserved(x, s, w) {
      NothingPending(x, s.jobs, s.fw.writers, w);
    }
  }

  /** What is due from a pack goes to files of the restore. */
  lemma PlannedWithin(x: Setting, packId: Id, more: seq<Write>, k: nat)
    requires Planned(x, packId, more) && k < |more|
    ensures more[k].file < |x.files|
  {
    assert more[k] in multiset(more);
  }

  lemma FetchInv(cfg: FW.Config, x: Setting, packOrder: seq<Id>, s: State, d: nat, s1: State)
    requires Inv(cfg, x, packOrder, s) && Fetches(x, s, d, s1) && NoRepeats(packOrder)
    ensures Inv(cfg, x, packOrder, s1)
  {
    hide FW.Inv;
    hide OnDisk;
    hide LoggedPacks;
    hide Conserved;
    var more: seq<Write> :| Planned(x, s.waiting[0], more) && s1 == Fetched(s, d, more);
    assert s.waiting == [s.waiting[0]] + s.waiting[1..];
    NotAgain(s.fetched, s.waiting, packOrder);
    LoggedPacksStep(x.e, x.backend, x.idx, x.files, s.fetched, s.waiting[0], s.log, more);
    forall k | 0 <= k < |more| ensures more[k].file < |x.files| {
      PlannedWithin(x, s.waiting[0], more, k);
    }
    forall w: Write | w.file < |x.files| ensures Conserved(x, s1, w) {
      FetchConserves(x, s, d, more, w);
    }
  }

  ghost predicate NoRepeats(packs: seq<Id>) {
    forall i, j :: 0 <= i < j < |packs| ==> packs[i] != packs[j]
  }

  lemma NotAgain(fetched: seq<Id>, waiting: seq<Id>, packOrder: seq<Id>)
    requires fetched + waiting == packOrder && waiting != [] && NoRepeats(packOrder)
    ensures waiting[0] !in fetched
  {
    forall i | 0 <= i < |fetched| ensures fetched[i] != waiting[0] {
      assert packOrder[i] == fetched[i] && packOrder[|fetched|] == waiting[0];
    }
  }

  lemma StartInv(cfg: FW.Config, x: Setting, packOrder: seq<Id>, s: State, d: nat, s1: State)
    requires x.Valid(cfg) && Inv(cfg, x, packOrder, s) && Starts(x, s, d, s1)
    ensures Inv(cfg, x, packOrder, s1)
  {
    hide FW.Inv;
    hide OnDisk;
    hide LoggedPacks;
    hide Conserved;
    hide Setting.Valid;
    StartSteps(cfg, x, s, d, s1);
    FW.StepInv(cfg, s.fw, d, s1.fw);
    forall p ensures OnDisk(cfg, s1.fw, p) {
      StepOnDisk(cfg, s.fw, d, s1.fw, p);
    }
    forall w: Write | w.file < |x.files| ensures Conserved(x, s1, w) {
      StartConserves(cfg, x, s, d, s1, w);
    }
  }

  /** Starting a write is a step of an idle writer. */
  lemma StartSteps(cfg: FW.Config, x: Setting, s: State, d: nat, s1: State)
    requires FW.Inv(cfg, s.fw) && Starts(x, s, d, s1)
    ensures FW.Steps(cfg, s.fw, d, s1.fw)
  {
    var w := s.jobs[d][0];
    assert s1.fw == FW.To(s.fw, d, FW.Entering(x.path(w.file), FW.Piece(w.offset, w.data)));
  }

  lemma GoInv(cfg: FW.Config, x: Setting, packOrder: seq<Id>, s: State, d: nat, s1: State)
    requires Inv(cfg, x, packOrder, s) && GoesOn(cfg, s, d, s1)
    ensures Inv(cfg, x, packOrder, s1)
  {
    hide FW.Inv;
    hide FW.Steps;
    hide OnDisk;
    hide LoggedPacks;
    hide Conserved;
    FW.StepInv(cfg, s.fw, d, s1.fw);
    forall p ensures OnDisk(cfg, s1.fw, p) {
      StepOnDisk(cfg, s.fw, d, s1.fw, p);
    }
    forall w: Write | w.file < |x.files| ensures Conserved(x, s1, w) {
      GoConserves(cfg, x, s, d, s1, w);
    }
    WritersStay(cfg, s, d, s1);
  }

  lemma WritersStay(cfg: FW.Config, s: State, d: nat, s1: State)
    requires GoesOn(cfg, s, d, s1)
    ensures |s1.fw.writers| == |s.fw.writers|
  {
  }

  lemma StepInv(cfg: FW.Config, x: Setting, packOrder: seq<Id>, s: State, s1: State)
    requires x.Valid(cfg) && Inv(cfg, x, packOrder, s) && Steps(cfg, x, s, s1) && NoRepeats(packOrder)
    ensures Inv(cfg, x, packOrder, s1)
  {
    hide Inv;
    hide Fetches;
    hide Starts;
    hide GoesOn;
    hide Setting.Valid;
    var d :| Fetches(x, s, d, s1) || Starts(x, s, d, s1) || GoesOn(cfg, s, d, s1);
    if Fetches(x, s, d, s1) {
      FetchInv(cfg, x, packOrder, s, d, s1);
    } else if Starts(x, s, d, s1) {
      StartInv(cfg, x, packOrder, s, d, s1);
    } else {
      GoInv(cfg, x, packOrder, s, d, s1);
    }
  }

  /** In every state of every run, every planned write is in exactly one place. */
  lemma {:induction false} RunInv(cfg: FW.Config, x: Setting, packOrder: seq<Id>, run: seq<State>, k: nat)
    requires x.Valid(cfg) && NoRepeats(packOrder) && IsRun(cfg, x, packOrder, run) && k < |run|
    ensures Inv(cfg, x, packOrder, run[k])
  {
    hide Inv;
    hide Initial;
    hide Steps;
    hide Setting.Valid;
    if k == 0 {
      InitialInv(cfg, x, packOrder, run[0]);
    } else {
      RunInv(cfg, x, packOrder, run, k - 1);
      assert Steps(cfg, x, run[k - 1], run[k - 1 + 1]);
      StepInv(cfg, x, packOrder, run[k - 1], run[k]);
    }
  }

  // ---------------------------------------------------------------- the end of a run

  lemma EnumerateOnce(packOrder: seq<Id>, packs: set<Id>)
    requires Enumerates(packOrder, packs)
    ensures NoRepeats(packOrder)
  {
  }

  /** When all workers are done, exactly the due writes have been made. */
  lemma FinishedPerformed(cfg: FW.Config, x: Setting, packs: map<Id, set<nat>>, packOrder: seq<Id>, s: State, f: nat)
    requires x.Valid(cfg) && Inv(cfg, x, packOrder, s) && Finished(s) && f < |x.files|
    requires Registers(x.idx, x.files, packs) && Enumerates(packOrder, packs.Keys)
    ensures AllWritten(x.e, x.backend, x.idx, x.files, s.log)
    ensures Performed(s.fw.events, x.path(f), f, s.log)
  {
    hide FW.Inv;
    hide OnDisk;
    hide LoggedPacks;
    hide AllWritten;
    hide Registers;
    hide LogOf;
    hide AllPending;
    assert s.fetched == packOrder;
    PacksSuffice(x.e, x.backend, x.idx, x.files, packs, packOrder, s.log);
    forall w: Write | w.file == f
      ensures multiset(LogOf(s.fw.events, x.path(f), f))[w] == multiset(s.log)[w]
    {
      assert Conserved(x, s, w);
      NothingPending(x, s.jobs, s.fw.writers, w);
    }
  }

  /**
   A whole restore, with any number of workers that interleave in any way: when all
   of them are done, every file that has blobs is on disk, and is the concatenation
   of its blobs exactly if its declared size is not above the indexed one, or if it
   could not be preallocated.
   */
  lemma RestoreEnds(cfg: FW.Config, x: Setting, packs: map<Id, set<nat>>, packOrder: seq<Id>, run: seq<State>, k: nat,
                    f: nat)
    requires x.Valid(cfg) && Registers(x.idx, x.files, packs) && Enumerates(packOrder, packs.Keys)
    requires IsRun(cfg, x, packOrder, run) && k < |run| && Finished(run[k])
    requires f < |x.files| && ContentReadable(x.e, x.backend, x.idx, x.files[f].content) && x.files[f].content != []
    ensures var disk, p, content := run[k].fw.disk, x.path(f), x.files[f].content;
            && AllKnown(x.idx, content) && p in disk
            && (disk[p] == Concat(x.e, x.backend, x.idx, content)
                <==> x.preallocated(f) ==> x.files[f].size <= End(x.idx, content))
  {
    hide FW.Inv;
    hide OnDisk;
    hide LoggedPacks;
    hide AllWritten;
    hide Registers;
    hide Enumerates;
    hide Performed;
    hide ContentReadable;
    hide Concat;
    hide End;
    hide Conserved;
    hide Steps;
    hide Initial;
    hide Finished;
    EnumerateOnce(packOrder, packs.Keys);
    RunInv(cfg, x, packOrder, run, k);
    FinishedPerformed(cfg, x, packs, packOrder, run[k], f);
    RestoredState(cfg, run[k].fw, x.path(f), x.e, x.backend, x.idx, x.files, f, run[k].log, x.preallocated(f));
  }

  /** Unless all is done, some worker can go on, if the next pack can be downloaded. */
  lemma NeverStuck(cfg: FW.Config, x: Setting, packOrder: seq<Id>, s: State)
    requires Inv(cfg, x, packOrder, s) && !Finished(s) && s.jobs != []
    requires s.waiting != [] ==> exists more :: Planned(x, s.waiting[0], more)
    ensures exists s1 :: Steps(cfg, x, s, s1)
  {
    hide FW.Inv;
    hide FW.Steps;
    hide OnDisk;
    hide LoggedPacks;
    hide Conserved;
    hide Within;
    hide Planned;
    if i :| 0 <= i < |s.fw.writers| && !s.fw.writers[i].Idle? {
      var j := FW.NeverStuck(cfg, s.fw, i);
      var fw1 :| FW.Steps(cfg, s.fw, j, fw1);
      assert GoesOn(cfg, s, j, s.(fw := fw1));
      assert Steps(cfg, x, s, s.(fw := fw1));
    } else if d :| 0 <= d < |s.jobs| && s.jobs[d] != [] {
      assert Starts(x, s, d, Started(x, s, d));
      assert Steps(cfg, x, s, Started(x, s, d));
    } else {
      var more: seq<Write> :| Planned(x, s.waiting[0], more);
      assert Fetches(x, s, 0, Fetched(s, 0, more));
      assert Steps(cfg, x, s, Fetched(s, 0, more));
    }
  }
}
