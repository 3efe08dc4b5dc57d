/**
 The locking protocol: a process looks for other locks, creates its own lock
 file, waits, and looks again.  Any number of processes take steps in any order
 against a store that shows every file from its creation to its removal.
 */
module Locks {

  type Pid = nat
  type LockId = nat

  /**
   Where a process is.  While it looks for other locks, `pending` are the listed
   lock files it still has to load; `mine` is its own file in the second check.
   */
  datatype Phase =
    | Idle
    | Checking(pending: set<LockId>, own: OwnFile)
    | Checked
    | Created(mine: LockId)
    | Held(mine: LockId)
    | Refreshing(mine: LockId, renewed: LockId)
    | Releasing(mine: LockId)

  datatype OwnFile = NoFile | File(id: LockId)

  datatype Proc = Proc(exclusive: bool, phase: Phase)

  /** The lock files with their exclusive flags, and the processes. */
  datatype State = State(store: map<LockId, bool>, procs: map<Pid, Proc>)

  /** Whether listing and loading are separate steps, and whether held locks are refreshed. */
  datatype Config = Config(split: bool, refresh: bool)

  predicate Conflicts(a: bool, b: bool) {
    a || b
  }

  // ---------------------------------------------------------------- steps

  predicate Init(s: State) {
    forall p :: p in s.procs ==> s.procs[p].phase.Idle?
  }

  function With(s: State, p: Pid, phase: Phase): State
    requires p in s.procs
  {
    s.(procs := s.procs[p := s.procs[p].(phase := phase)])
  }

  function Listed(s: State, own: OwnFile): set<LockId> {
    if own.File? then s.store.Keys - {own.id} else s.store.Keys
  }

  /** Listing the lock files for the first check, with the kind of lock that is wanted. */
  predicate BeginFirst(s: State, s': State, p: Pid, exclusive: bool) {
    p in s.procs && s.procs[p].phase.Idle? &&
    s' == s.(procs := s.procs[p := Proc(exclusive, Checking(Listed(s, NoFile), NoFile))])
  }

  /** Listing the lock files for the second check. */
  predicate BeginSecond(s: State, s': State, p: Pid) {
    p in s.procs && s.procs[p].phase.Created? &&
    var own := File(s.procs[p].phase.mine);
    s' == With(s, p, Checking(Listed(s, own), own))
  }

  /** What a check ends in if it finds a conflicting lock. */
  function Refused(own: OwnFile): Phase {
    if own.File? then Releasing(own.id) else Idle
  }

  /** What a check ends in if it finds none. */
  function Passed(own: OwnFile): Phase {
    if own.File? then Held(own.id) else Checked
  }

  /** Loading one listed lock file; a file that is gone is ignored. */
  predicate Load(s: State, s': State, p: Pid, id: LockId) {
    p in s.procs && s.procs[p].phase.Checking? && id in s.procs[p].phase.pending &&
    var ph := s.procs[p].phase;
    s' == With(s, p, if id in s.store && Conflicts(s.procs[p].exclusive, s.store[id]) then Refused(ph.own)
                     else Checking(ph.pending - {id}, ph.own))
  }

  /** Everything listed has been loaded. */
  predicate EndCheck(s: State, s': State, p: Pid) {
    p in s.procs && s.procs[p].phase.Checking? && s.procs[p].phase.pending == {} &&
    s' == With(s, p, Passed(s.procs[p].phase.own))
  }

  predicate NoConflict(s: State, exclusive: bool, own: OwnFile) {
    forall id :: id in s.store && id in Listed(s, own) ==> !Conflicts(exclusive, s.store[id])
  }

  /** A whole first check in one step. */
  predicate CheckFirst(s: State, s': State, p: Pid, exclusive: bool) {
    p in s.procs && s.procs[p].phase.Idle? &&
    s' == s.(procs := s.procs[p := Proc(exclusive, if NoConflict(s, exclusive, NoFile) then Checked else Idle)])
  }

  /** A whole second check in one step. */
  predicate CheckSecond(s: State, s': State, p: Pid) {
    p in s.procs && s.procs[p].phase.Created? &&
    var own := File(s.procs[p].phase.mine);
    s' == With(s, p, if NoConflict(s, s.procs[p].exclusive, own) then Passed(own) else Refused(own))
  }

  predicate Create(s: State, s': State, p: Pid, id: LockId) {
    p in s.procs && s.procs[p].phase.Checked? && id !in s.store &&
    s' == With(s, p, Created(id)).(store := s.store[id := s.procs[p].exclusive])
  }

  /** Removing the lock file, after a refusal or to give up a held lock. */
  predicate Unlock(s: State, s': State, p: Pid) {
    p in s.procs && (s.procs[p].phase.Releasing? || s.procs[p].phase.Held?) &&
    s' == With(s, p, Idle).(store := s.store - {s.procs[p].phase.mine})
  }

  predicate RefreshCreate(s: State, s': State, p: Pid, id: LockId) {
    p in s.procs && s.procs[p].phase.Held? && id !in s.store &&
    s' == With(s, p, Refreshing(s.procs[p].phase.mine, id)).(store := s.store[id := s.procs[p].exclusive])
  }

  predicate RefreshRemove(s: State, s': State, p: Pid) {
    p in s.procs && s.procs[p].phase.Refreshing? &&
    s' == With(s, p, Held(s.procs[p].phase.renewed)).(store := s.store - {s.procs[p].phase.mine})
  }

  datatype Step =
    | SBeginFirst(p: Pid, exclusive: bool)
    | SBeginSecond(p: Pid)
    | SLoad(p: Pid, id: LockId)
    | SEndCheck(p: Pid)
    | SCheckFirst(p: Pid, exclusive: bool)
    | SCheckSecond(p: Pid)
    | SCreate(p: Pid, id: LockId)
    | SUnlock(p: Pid)
    | SRefreshCreate(p: Pid, id: LockId)
    | SRefreshRemove(p: Pid)

  predicate Takes(cfg: Config, s: State, s': State, step: Step) {
    match step
    case SBeginFirst(p, exclusive) => cfg.split && BeginFirst(s, s', p, exclusive)
    case SBeginSecond(p) => cfg.split && BeginSecond(s, s', p)
    case SLoad(p, id) => cfg.split && Load(s, s', p, id)
    case SEndCheck(p) => cfg.split && EndCheck(s, s', p)
    case SCheckFirst(p, exclusive) => !cfg.split && CheckFirst(s, s', p, exclusive)
    case SCheckSecond(p) => !cfg.split && CheckSecond(s, s', p)
    case SCreate(p, id) => Create(s, s', p, id)
    case SUnlock(p) => Unlock(s, s', p)
    case SRefreshCreate(p, id) => cfg.refresh && RefreshCreate(s, s', p, id)
    case SRefreshRemove(p) => cfg.refresh && RefreshRemove(s, s', p)
  }

  ghost predicate Next(cfg: Config, s: State, s': State) {
    exists step :: Takes(cfg, s, s', step)
  }

  /** A run: the states passed through, starting with idle processes and any files. */
  ghost predicate IsRun(cfg: Config, run: seq<State>) {
    run != [] && Init(run[0]) &&
    forall i :: 0 <= i < |run| - 1 ==> Next(cfg, run[i], run[i + 1])
  }

  // ---------------------------------------------------------------- safety

  predicate Holds(pr: Proc) {
    pr.phase.Held? || pr.phase.Refreshing?
  }

  /** A held exclusive lock is the only held lock. */
  ghost predicate MutualExclusion(s: State) {
    forall p, q :: p in s.procs && q in s.procs && p != q && Holds(s.procs[p]) && Holds(s.procs[q]) ==>
      !Conflicts(s.procs[p].exclusive, s.procs[q].exclusive)
  }

  ghost predicate Safe(cfg: Config) {
    forall run, i :: IsRun(cfg, run) && 0 <= i < |run| ==> MutualExclusion(run[i])
  }

  // ---------------------------------------------------------------- invariant

  /** The lock files a process has in the store. */
  function FilesOf(ph: Phase): set<LockId> {
    match ph
    case Created(f) => {f}
    case Held(f) => {f}
    case Refreshing(f, g) => {f, g}
    case Releasing(f) => {f}
    case Checking(_, File(f)) => {f}
    case _ => {}
  }

  /** The process has its files in the store. */
  ghost predicate HasFiles(store: map<LockId, bool>, pr: Proc) {
    forall f :: f in FilesOf(pr.phase) ==> f in store && store[f] == pr.exclusive
  }

  /** The process has created its file and has not been refused. */
  predicate Contends(pr: Proc) {
    pr.phase.Created? || pr.phase.Held? || pr.phase.Refreshing? || (pr.phase.Checking? && pr.phase.own.File?)
  }

  /** The process is still going to look at one of the given files. */
  predicate WillSee(pr: Proc, files: set<LockId>) {
    pr.phase.Created? || (pr.phase.Checking? && exists f :: f in files && f in pr.phase.pending)
  }

  /**
   Two processes have no file in common, and of two conflicting contenders one is
   still going to look at the other's file.
   */
  ghost predicate Apart(pr: Proc, qr: Proc) {
    && FilesOf(pr.phase) !! FilesOf(qr.phase)
    && (Contends(pr) && Contends(qr) && Conflicts(pr.exclusive, qr.exclusive) ==>
          WillSee(pr, FilesOf(qr.phase)) || WillSee(qr, FilesOf(pr.phase)))
  }

  /** No checks in progress if they are atomic, and none being refreshed if that is not done. */
  predicate Allowed(cfg: Config, pr: Proc) {
    && (!cfg.split ==> !pr.phase.Checking?) && (!cfg.refresh ==> !pr.phase.Refreshing?)
    && (pr.phase.Refreshing? ==> pr.phase.mine != pr.phase.renewed)
  }

  ghost predicate Inv(cfg: Config, s: State) {
    && (forall p :: p in s.procs ==> HasFiles(s.store, s.procs[p]) && Allowed(cfg, s.procs[p]))
    && (forall p, q :: p in s.procs && q in s.procs && p != q ==> Apart(s.procs[p], s.procs[q]))
  }

  lemma InvImpliesMutualExclusion(cfg: Config, s: State)
    requires Inv(cfg, s)
    ensures MutualExclusion(s)
  {
    forall p, q | p in s.procs && q in s.procs && p != q && Holds(s.procs[p]) && Holds(s.procs[q])
      ensures !Conflicts(s.procs[p].exclusive, s.procs[q].exclusive)
    {
      assert Apart(s.procs[p], s.procs[q]);
    }
  }

  lemma ApartSymmetric(pr: Proc, qr: Proc)
    requires Apart(pr, qr)
    ensures Apart(qr, pr)
  {
  }

  /** A step of one process keeps the invariant if that process gets along with all others. */
  lemma OneMoves(cfg: Config, s: State, s': State, p: Pid)
    requires Inv(cfg, s) && p in s.procs && p in s'.procs && s'.procs == s.procs[p := s'.procs[p]]
    requires HasFiles(s'.store, s'.procs[p]) && Allowed(cfg, s'.procs[p])
    requires forall q :: q in s.procs && q != p ==> HasFiles(s'.store, s.procs[q]) && Apart(s'.procs[p], s.procs[q])
    ensures Inv(cfg, s')
  {
    hide HasFiles;
    hide Apart;
    hide Allowed;
    forall a, b | a in s'.procs && b in s'.procs && a != b ensures Apart(s'.procs[a], s'.procs[b]) {
      if a == p {
        assert Apart(s'.procs[p], s.procs[b]);
      } else if b == p {
        ApartSymmetric(s'.procs[p], s.procs[a]);
      } else {
        assert Apart(s.procs[a], s.procs[b]);
      }
    }
  }

  /** What is known about a process and another one. */
  lemma Others(cfg: Config, s: State, p: Pid, q: Pid)
    requires Inv(cfg, s) && p in s.procs && q in s.procs && p != q
    ensures HasFiles(s.store, s.procs[p]) && HasFiles(s.store, s.procs[q]) && Apart(s.procs[p], s.procs[q])
    ensures Allowed(cfg, s.procs[p]) && Allowed(cfg, s.procs[q])
  {
    hide HasFiles;
    hide Apart;
    hide Allowed;
  }

  /** The steps that belong to a configuration in which the protocol is safe. */
  predicate SafeConfig(cfg: Config) {
    !(cfg.split && cfg.refresh)
  }

  /** The process is in its second check, and of p's files it has listed the old one only. */
  predicate HasOnlyOld(s: State, p: Pid, qr: Proc) {
    p in s.procs && s.procs[p].phase.Refreshing? && qr.phase.Checking? && qr.phase.own.File? &&
    Conflicts(s.procs[p].exclusive, qr.exclusive) &&
    s.procs[p].phase.mine in qr.phase.pending && s.procs[p].phase.renewed !in qr.phase.pending
  }

  /** A refresh does not remove the only file by which a conflicting process would notice the lock. */
  ghost predicate Noticed(s: State, step: Step) {
    step.SRefreshRemove? ==> forall q :: q in s.procs && q != step.p ==> !HasOnlyOld(s, step.p, s.procs[q])
  }

  /** With atomic checks, or without refreshes, every step is of that kind. */
  lemma SafeIsNoticed(cfg: Config, s: State, s': State, step: Step)
    requires SafeConfig(cfg) && Inv(cfg, s) && Takes(cfg, s, s', step)
    ensures Noticed(s, step)
  {
    hide HasFiles;
    hide Apart;
    if cfg.refresh {
      forall q | q in s.procs ensures !HasOnlyOld(s, step.p, s.procs[q]) {
        assert Allowed(cfg, s.procs[q]);
      }
    }
  }

  /** One process moves; the effect on another one. */
  lemma StepApart(cfg: Config, s: State, s': State, step: Step, q: Pid)
    requires Noticed(s, step) && Inv(cfg, s) && Takes(cfg, s, s', step)
    requires q in s.procs && q != step.p
    ensures step.p in s.procs && step.p in s'.procs
    ensures HasFiles(s'.store, s.procs[q]) && Apart(s'.procs[step.p], s.procs[q])
  {
    hide Inv;
    var p := step.p;
    Others(cfg, s, p, q);
    var pr, pr', qr := s.procs[p], s'.procs[p], s.procs[q];
    if step.SBeginSecond? && Contends(qr) {
      var f :| f in FilesOf(qr.phase);
      assert f in pr'.phase.pending;
    }
  }

  lemma StepSelf(cfg: Config, s: State, s': State, step: Step)
    requires Inv(cfg, s) && Takes(cfg, s, s', step)
    ensures step.p in s.procs && step.p in s'.procs && s'.procs == s.procs[step.p := s'.procs[step.p]]
    ensures HasFiles(s'.store, s'.procs[step.p]) && Allowed(cfg, s'.procs[step.p])
  {
    hide Inv;
    Itself(cfg, s, step.p);
    assert s'.procs == s.procs[step.p := s'.procs[step.p]];
  }

  lemma Itself(cfg: Config, s: State, p: Pid)
    requires Inv(cfg, s)
    ensures p in s.procs ==> HasFiles(s.store, s.procs[p]) && Allowed(cfg, s.procs[p])
  {
    hide HasFiles;
    hide Allowed;
  }

  lemma StepKeeps(cfg: Config, s: State, s': State, step: Step)
    requires Noticed(s, step) && Inv(cfg, s) && Takes(cfg, s, s', step)
    ensures Inv(cfg, s')
  {
    hide Noticed;
    hide Takes;
    hide Inv;
    hide HasFiles;
    hide Apart;
    hide Allowed;
    StepSelf(cfg, s, s', step);
    forall q | q in s.procs && q != step.p
      ensures HasFiles(s'.store, s.procs[q]) && Apart(s'.procs[step.p], s.procs[q])
    {
      StepApart(cfg, s, s', step, q);
    }
    OneMoves(cfg, s, s', step.p);
  }

  /** A refresh that goes unnoticed breaks the invariant, so the condition is exact. */
  lemma StepKeepsExactly(cfg: Config, s: State, s': State, step: Step)
    requires Inv(cfg, s) && Takes(cfg, s, s', step)
    ensures Inv(cfg, s') <==> Noticed(s, step)
  {
    hide HasFiles;
    hide Allowed;
    if Noticed(s, step) {
      StepKeeps(cfg, s, s', step);
    } else {
      var q :| q in s.procs && q != step.p && HasOnlyOld(s, step.p, s.procs[q]);
      assert !Apart(s'.procs[step.p], s'.procs[q]);
    }
  }

  ghost predicate NextNoticed(cfg: Config, s: State, s': State) {
    exists step :: Takes(cfg, s, s', step) && Noticed(s, step)
  }

  /** A run in which no refresh goes unnoticed. */
  ghost predicate NoticedRun(cfg: Config, run: seq<State>) {
    run != [] && Init(run[0]) &&
    forall i :: 0 <= i < |run| - 1 ==> NextNoticed(cfg, run[i], run[i + 1])
  }

  lemma {:induction false} NoticedKeeps(cfg: Config, run: seq<State>, i: nat)
    requires NoticedRun(cfg, run) && i < |run|
    ensures Inv(cfg, run[i])
  {
    hide Takes;
    hide Noticed;
    if i > 0 {
      NoticedKeeps(cfg, run, i - 1);
      assert NextNoticed(cfg, run[i - 1], run[i - 1 + 1]);
      var step :| Takes(cfg, run[i - 1], run[i], step) && Noticed(run[i - 1], step);
      StepKeeps(cfg, run[i - 1], run[i], step);
    }
  }

  /** With split checks and refreshes, too, a run without unnoticed refreshes keeps locks exclusive. */
  lemma NoticedExcludes(cfg: Config, run: seq<State>, i: nat)
    requires NoticedRun(cfg, run) && i < |run|
    ensures MutualExclusion(run[i])
  {
    NoticedKeeps(cfg, run, i);
    InvImpliesMutualExclusion(cfg, run[i]);
  }

  /** In a configuration where checks are atomic or nothing is refreshed, every run is of that kind. */
  lemma {:induction false} SafeRunNoticed(cfg: Config, run: seq<State>, n: nat)
    requires SafeConfig(cfg) && IsRun(cfg, run) && 0 < n <= |run|
    ensures NoticedRun(cfg, run[..n])
  {
    hide Takes;
    hide Noticed;
    hide Inv;
    if n > 1 {
      SafeRunNoticed(cfg, run, n - 1);
      var init := run[..n - 1];
      NoticedKeeps(cfg, init, n - 2);
      assert init[n - 2] == run[n - 2] && Next(cfg, run[n - 2], run[n - 2 + 1]);
      var step :| Takes(cfg, run[n - 2], run[n - 1], step);
      SafeIsNoticed(cfg, run[n - 2], run[n - 1], step);
      assert NextNoticed(cfg, run[n - 2], run[n - 1]);
      forall i | 0 <= i < n - 1 ensures NextNoticed(cfg, run[..n][i], run[..n][i + 1]) {
        if i < n - 2 {
          assert NextNoticed(cfg, init[i], init[i + 1]);
        }
      }
    }
  }

  // ---------------------------------------------------------------- where it fails

  /** Two processes that want the lock exclusively. */
  function Two(a: Phase, b: Phase, files: set<LockId>): State {
    State(map f | f in files :: true, map[0 := Proc(true, a), 1 := Proc(true, b)])
  }

  ghost predicate Reachable(cfg: Config, s: State) {
    exists run :: IsRun(cfg, run) && run[|run| - 1] == s
  }

  lemma Start(cfg: Config, s: State)
    requires Init(s)
    ensures Reachable(cfg, s)
  {
    assert IsRun(cfg, [s]);
  }

  lemma Go(cfg: Config, s: State, s': State, step: Step)
    requires Reachable(cfg, s) && Takes(cfg, s, s', step)
    ensures Reachable(cfg, s')
  {
    hide Takes;
    var run :| IsRun(cfg, run) && run[|run| - 1] == s;
    assert Next(cfg, s, s');
    assert IsRun(cfg, run + [s']);
  }

  /** Both processes pass their first check. */
  lemma BothChecked()
    ensures Reachable(Config(true, true), Two(Checked, Checked, {}))
  {
    hide Reachable;
    var cfg := Config(true, true);
    var none := Checking({}, NoFile);
    Start(cfg, Two(Idle, Idle, {}));
    assert Two(Idle, Idle, {}).store.Keys == {} && Two(Idle, Checked, {}).store.Keys == {};
    Go(cfg, Two(Idle, Idle, {}), Two(Idle, none, {}), SBeginFirst(1, true));
    Go(cfg, Two(Idle, none, {}), Two(Idle, Checked, {}), SEndCheck(1));
    Go(cfg, Two(Idle, Checked, {}), Two(none, Checked, {}), SBeginFirst(0, true));
    Go(cfg, Two(none, Checked, {}), Two(Checked, Checked, {}), SEndCheck(0));
  }

  /** One process acquires the lock. */
  lemma Acquired()
    ensures Reachable(Config(true, true), Two(Held(0), Checked, {0}))
  {
    hide Reachable;
    var cfg := Config(true, true);
    BothChecked();
    Go(cfg, Two(Checked, Checked, {}), Two(Created(0), Checked, {0}), SCreate(0, 0));
    assert Two(Created(0), Checked, {0}).store.Keys - {0} == {};
    Go(cfg, Two(Created(0), Checked, {0}), Two(Checking({}, File(0)), Checked, {0}), SBeginSecond(0));
    Go(cfg, Two(Checking({}, File(0)), Checked, {0}), Two(Held(0), Checked, {0}), SEndCheck(0));
  }

  /** The other one creates its file and lists the first one's. */
  lemma BothListed()
    ensures Reachable(Config(true, true), Two(Held(0), Checking({0}, File(1)), {0, 1}))
  {
    hide Reachable;
    var cfg := Config(true, true);
    Acquired();
    Go(cfg, Two(Held(0), Checked, {0}), Two(Held(0), Created(1), {0, 1}), SCreate(1, 1));
    assert Two(Held(0), Created(1), {0, 1}).store.Keys - {1} == {0};
    Go(cfg, Two(Held(0), Created(1), {0, 1}), Two(Held(0), Checking({0}, File(1)), {0, 1}), SBeginSecond(1));
  }

  /** The listed file is replaced. */
  lemma Replaced()
    ensures Reachable(Config(true, true), Two(Held(2), Checking({0}, File(1)), {1, 2}))
  {
    hide Reachable;
    var cfg := Config(true, true);
    BothListed();
    Go(cfg, Two(Held(0), Checking({0}, File(1)), {0, 1}),
       Two(Refreshing(0, 2), Checking({0}, File(1)), {0, 1, 2}), SRefreshCreate(0, 2));
    Go(cfg, Two(Refreshing(0, 2), Checking({0}, File(1)), {0, 1, 2}),
       Two(Held(2), Checking({0}, File(1)), {1, 2}), SRefreshRemove(0));
  }

  /**
   With separate loads, a refresh between listing and loading goes unnoticed: the
   listed file is gone, and the new one was not listed.
   */
  lemma LostRefresh()
    ensures var s := Two(Held(2), Held(1), {1, 2});
            Reachable(Config(true, true), s) && !MutualExclusion(s)
  {
    hide Reachable;
    var cfg := Config(true, true);
    Replaced();
    assert {0} - {0} == {};
    Go(cfg, Two(Held(2), Checking({0}, File(1)), {1, 2}), Two(Held(2), Checking({}, File(1)), {1, 2}), SLoad(1, 0));
    Go(cfg, Two(Held(2), Checking({}, File(1)), {1, 2}), Two(Held(2), Held(1), {1, 2}), SEndCheck(1));
    var s := Two(Held(2), Held(1), {1, 2});
    assert 0 in s.procs && 1 in s.procs && Holds(s.procs[0]) && Holds(s.procs[1]);
  }

  /** A process that finds nothing in its way acquires the lock, whoever holds one. */
  lemma {:induction false} Finishes(cfg: Config, s: State, p: Pid, q: Pid)
    requires cfg.split && Reachable(cfg, s) && p in s.procs && q in s.procs && p != q
    requires Holds(s.procs[p]) && Conflicts(s.procs[p].exclusive, s.procs[q].exclusive)
    requires s.procs[q].phase.Checking? && s.procs[q].phase.own.File?
    requires forall f :: f in s.procs[q].phase.pending ==> f !in s.store || !Conflicts(s.procs[q].exclusive, s.store[f])
    ensures exists s' :: Reachable(cfg, s') && !MutualExclusion(s')
    decreases |s.procs[q].phase.pending|
  {
    hide Reachable;
    var ph := s.procs[q].phase;
    if ph.pending == {} {
      var s' := With(s, q, Passed(ph.own));
      Go(cfg, s, s', SEndCheck(q));
      assert Holds(s'.procs[p]) && Holds(s'.procs[q]);
    } else {
      var f :| f in ph.pending;
      var s' := With(s, q, Checking(ph.pending - {f}, ph.own));
      Go(cfg, s, s', SLoad(q, f));
      Finishes(cfg, s', p, q);
    }
  }

  /** Wherever a refresh goes unnoticed by a process that nothing else stops, two conflicting locks can be held. */
  lemma UnnoticedFails(cfg: Config, s: State, p: Pid, q: Pid)
    requires cfg.split && cfg.refresh && Reachable(cfg, s) && q in s.procs && p != q && HasOnlyOld(s, p, s.procs[q])
    requires forall f :: f in s.procs[q].phase.pending && f in s.store && f != s.procs[p].phase.mine ==>
               !Conflicts(s.procs[q].exclusive, s.store[f])
    ensures exists s' :: Reachable(cfg, s') && !MutualExclusion(s')
  {
    hide Reachable;
    var ph := s.procs[p].phase;
    var s' := With(s, p, Held(ph.renewed)).(store := s.store - {ph.mine});
    Go(cfg, s, s', SRefreshRemove(p));
    Finishes(cfg, s', p, q);
  }

  /** The protocol excludes exactly if checks are atomic or locks are not refreshed. */
  lemma SafeExactly(cfg: Config)
    ensures Safe(cfg) <==> SafeConfig(cfg)
  {
    if SafeConfig(cfg) {
      forall run, i | IsRun(cfg, run) && 0 <= i < |run| ensures MutualExclusion(run[i]) {
        SafeRunNoticed(cfg, run, |run|);
        assert run[..|run|] == run;
        NoticedExcludes(cfg, run, i);
      }
    } else {
      LostRefresh();
      var run :| IsRun(cfg, run) && run[|run| - 1] == Two(Held(2), Held(1), {1, 2});
      assert 0 <= |run| - 1 < |run|;
    }
  }
}
