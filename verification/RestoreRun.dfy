/**
 A whole restore: the writes that were planned, made by any number of goroutines
 in any order, each of which opens, writes and closes files as it needs them.
 */
module RestoreRuns {
  import opened Blobs
  import opened Crypto
  import opened Restores
  import FW = FilesWriters

  // ---------------------------------------------------------------- what the disk holds

  /** The contents of a file after some events. */
  ghost function Replayed(cfg: FW.Config, events: seq<FW.Event>, p: FW.Path): seq<byte> {
    if events == [] then []
    else
      var before, last := Replayed(cfg, events[..|events| - 1], p), events[|events| - 1];
      if last.path != p then before
      else
        match last
        case Truncated(_) => cfg.created(p)
        case Opened(_) => before
        case Wrote(_, piece, open) => if open then FW.Put(before, piece) else before
  }

  /** Once a file was truncated, its contents are what the events made of it. */
  ghost predicate OnDisk(cfg: FW.Config, s: FW.State, p: FW.Path) {
    FW.Truncations(s.events, p) > 0 ==> p in s.disk && s.disk[p] == Replayed(cfg, s.events, p)
  }

  lemma ReplayedPush(cfg: FW.Config, events: seq<FW.Event>, last: FW.Event, p: FW.Path)
    ensures Replayed(cfg, events + [last], p) ==
            if last.path != p || last.Opened? || (last.Wrote? && !last.open) then Replayed(cfg, events, p)
            else if last.Truncated? then cfg.created(p)
            else FW.Put(Replayed(cfg, events, p), last.piece)
  {
    assert (events + [last])[..|events|] == events;
  }

  lemma StepOnDisk(cfg: FW.Config, s: FW.State, i: nat, s1: FW.State, p: FW.Path)
    requires FW.Steps(cfg, s, i, s1) && OnDisk(cfg, s, p)
    ensures OnDisk(cfg, s1, p)
  {
    hide FW.Truncations;
    hide FW.Put;
    hide FW.LockFree;
    hide FW.CanOpen;
    hide FW.Without;
    hide Replayed;
    var w := s.writers[i];
    if w.Acquiring? {
      var event := if w.creates then FW.Truncated(w.path) else FW.Opened(w.path);
      FW.EventsPush(s.events, event, p);
      ReplayedPush(cfg, s.events, event, p);
    } else if w.Writing? {
      var event := FW.Wrote(w.path, w.piece, w.handle in s.open);
      FW.EventsPush(s.events, event, p);
      ReplayedPush(cfg, s.events, event, p);
    }
  }

  lemma {:induction false} RunOnDisk(cfg: FW.Config, run: seq<FW.State>, moves: seq<nat>, k: nat, p: FW.Path)
    requires FW.IsRun(cfg, run, moves) && k <= |moves|
    ensures OnDisk(cfg, run[k], p)
  {
    hide FW.Steps;
    if k > 0 {
      RunOnDisk(cfg, run, moves, k - 1, p);
      assert FW.Steps(cfg, run[k - 1], moves[k - 1], run[k - 1 + 1]);
      StepOnDisk(cfg, run[k - 1], moves[k - 1], run[k], p);
    }
  }

  // ---------------------------------------------------------------- the writes of a run

  /** The writes to a path, as writes to the f-th file. */
  ghost function LogOf(events: seq<FW.Event>, p: FW.Path, f: nat): seq<Write> {
    if events == [] then []
    else
      var before, last := LogOf(events[..|events| - 1], p, f), events[|events| - 1];
      if last.path == p && last.Wrote? then before + [Write(f, last.piece.offset, last.piece.data)] else before
  }

  lemma FirstPrefix(events: seq<FW.Event>, p: FW.Path)
    requires FW.TruncatedFirst(events, p) && events != []
    ensures var init, last := events[..|events| - 1], events[|events| - 1];
            && FW.TruncatedFirst(init, p)
            && (last.path == p && !last.Truncated? ==> FW.Truncations(init, p) > 0)
  {
    var init := events[..|events| - 1];
    forall i | 0 <= i < |init| && init[i].path == p && !init[i].Truncated? ensures FW.Truncations(init[..i], p) > 0 {
      assert init[..i] == events[..i] && init[i] == events[i];
    }
  }

  lemma {:induction false} NoWritesBefore(events: seq<FW.Event>, p: FW.Path, f: nat)
    requires FW.TruncatedFirst(events, p) && FW.Truncations(events, p) == 0
    ensures LogOf(events, p, f) == []
  {
    if events != [] {
      FirstPrefix(events, p);
      NoWritesBefore(events[..|events| - 1], p, f);
    }
  }

  /** A file that was truncated once, before everything else, is what the writes made of it. */
  lemma {:induction false} ReplayedApplied(cfg: FW.Config, events: seq<FW.Event>, p: FW.Path, f: nat)
    requires FW.TruncatedFirst(events, p) && FW.Truncations(events, p) == 1 && FW.WritesOpen(events)
    ensures Replayed(cfg, events, p) == Applied(cfg.created(p), f, LogOf(events, p, f))
  {
    hide WriteAt;
    var last := |events| - 1;
    var init, e := events[..last], events[last];
    FirstPrefix(events, p);
    if e == FW.Truncated(p) {
      NoWritesBefore(init, p, f);
    } else {
      ReplayedApplied(cfg, init, p, f);
      if e.path == p && e.Wrote? {
        var log := LogOf(init, p, f);
        assert LogOf(events, p, f)[..|log|] == log;
      }
    }
  }

  // ---------------------------------------------------------------- the whole restore

  /** The writers have made exactly the planned writes to a file. */
  ghost predicate Performed(events: seq<FW.Event>, p: FW.Path, f: nat, log: seq<Write>) {
    forall w: Write :: w.file == f ==> multiset(LogOf(events, p, f))[w] == multiset(log)[w]
  }

  lemma {:induction false} WritesTouch(events: seq<FW.Event>, p: FW.Path, f: nat)
    requires FW.TruncatedFirst(events, p) && LogOf(events, p, f) != []
    ensures FW.Truncations(events, p) > 0
  {
    if FW.Truncations(events, p) == 0 {
      NoWritesBefore(events, p, f);
    }
  }

  lemma SomeWrite(e: Env, backend: map<Id, seq<byte>>, idx: Lookup, files: seq<FileInfo>, f: nat, log: seq<Write>)
    requires e.key.Sized() && IndexOk(idx) && FileWritten(e, backend, idx, files, f, log)
    requires f < |files| && ContentReadable(e, backend, idx, files[f].content) && files[f].content != []
    ensures log != []
  {
    hide PlainAt;
    hide FileWrites;
    hide FileWritten;
    ConcatLength(e, backend, idx, files[f].content);
    var w := FileWrites(e, backend, idx, f, files[f].content)[0];
    WrittenOnce(e, backend, idx, files, f, log, w);
    assert w in multiset(log);
  }

  /**
   When the planned writes to a file have been made, the file on disk is the
   concatenation of its blobs exactly if its declared size is not above the indexed
   one, or if it could not be preallocated.
   */
  lemma RestoredState(cfg: FW.Config, s: FW.State, p: FW.Path, e: Env, backend: map<Id, seq<byte>>, idx: Lookup,
                      files: seq<FileInfo>, f: nat, log: seq<Write>, preallocated: bool)
    requires FW.Inv(cfg, s) && OnDisk(cfg, s, p)
    requires e.key.Sized() && IndexOk(idx) && AllWritten(e, backend, idx, files, log)
    requires f < |files| && ContentReadable(e, backend, idx, files[f].content) && files[f].content != []
    requires Performed(s.events, p, f, log) && cfg.created(p) == NewFile(files[f].size, preallocated)
    ensures AllKnown(idx, files[f].content) && p in s.disk
    ensures s.disk[p] == Concat(e, backend, idx, files[f].content)
            <==> preallocated ==> files[f].size <= End(idx, files[f].content)
  {
    hide FW.Inv;
    hide FW.Truncations;
    hide FW.TruncatedFirst;
    hide FW.WritesOpen;
    hide DueIn;
    hide ContentReadable;
    hide Applied;
    hide Replayed;
    hide LogOf;
    hide Concat;
    hide End;
    var made := LogOf(s.events, p, f);
    assert FileWritten(e, backend, idx, files, f, made);
    SomeWrite(e, backend, idx, files, f, made);
    FW.InvCreatedOnce(cfg, s, p);
    WritesTouch(s.events, p, f);
    ReplayedApplied(cfg, s.events, p, f);
    RestoredBySize(e, backend, idx, files, f, made, preallocated);
  }

  /** This is so in every run of any number of writers, in whatever order the writes are made. */
  lemma RestoredOnDisk(cfg: FW.Config, run: seq<FW.State>, moves: seq<nat>, k: nat, p: FW.Path,
                       e: Env, backend: map<Id, seq<byte>>, idx: Lookup, files: seq<FileInfo>, f: nat, log: seq<Write>,
                       preallocated: bool)
    requires FW.IsRun(cfg, run, moves) && k <= |moves|
    requires e.key.Sized() && IndexOk(idx) && AllWritten(e, backend, idx, files, log)
    requires f < |files| && ContentReadable(e, backend, idx, files[f].content) && files[f].content != []
    requires Performed(run[k].events, p, f, log) && cfg.created(p) == NewFile(files[f].size, preallocated)
    ensures AllKnown(idx, files[f].content) && p in run[k].disk
    ensures run[k].disk[p] == Concat(e, backend, idx, files[f].content)
            <==> preallocated ==> files[f].size <= End(idx, files[f].content)
  {
    hide FW.Steps;
    hide FW.Initial;
    hide FW.Inv;
    hide OnDisk;
    hide AllWritten;
    hide ContentReadable;
    hide Performed;
    hide Concat;
    hide End;
    FW.RunInv(cfg, run, moves, k);
    RunOnDisk(cfg, run, moves, k, p);
    RestoredState(cfg, run[k], p, e, backend, idx, files, f, log, preallocated);
  }
}
