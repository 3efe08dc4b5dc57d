/**
 Writing restored files from many goroutines: the first writer of a file creates
 it while holding the file's lock; open handles are shared, counted by users and
 closed by the last of them.
 */
module FilesWriters {
  import opened Blobs
  import Restores

  type Path = string

  /** What is to be written, and where in the file. */
  datatype Piece = Piece(offset: int, data: seq<byte>)

  /** The handles in use and the numbers of their users; paths are spread over buckets. */
  datatype Bucket = Bucket(files: map<Path, nat>, users: map<Path, int>)

  /** A goroutine that writes a blob; `creates` says that it found the file untouched, and holds its lock. */
  datatype Writer =
    | Idle
    | Entering(path: Path, piece: Piece)
    | Acquiring(path: Path, piece: Piece, creates: bool)
    | Writing(path: Path, piece: Piece, creates: bool, handle: nat)
    | Releasing(path: Path, creates: bool, handle: nat)
    | Leaving(path: Path, creates: bool)

  /** What happens to a file: it is truncated or just opened, or written, and then the handle is open or not. */
  datatype Event = Truncated(path: Path) | Opened(path: Path) | Wrote(path: Path, piece: Piece, open: bool)

  datatype State = State(buckets: seq<Bucket>, open: set<nat>, next: nat, disk: map<Path, seq<byte>>,
                         inProgress: set<Path>, writers: seq<Writer>, events: seq<Event>)

  /** The bucket of a path is its hash modulo the number of buckets; a created file starts with given contents. */
  datatype Config = Config(sum64: Path -> nat, count: nat, created: Path -> seq<byte>)
  {
    predicate Valid() { count > 0 }

    function Of(p: Path): (b: nat)
      requires Valid()
      ensures b < count
    {
      sum64(p) % count
    }
  }

  // ---------------------------------------------------------------- steps

  ghost predicate Holds(w: Writer, p: Path) {
    !w.Idle? && !w.Entering? && w.path == p && w.creates
  }

  ghost predicate LockFree(s: State, p: Path) {
    forall i :: 0 <= i < |s.writers| ==> !Holds(s.writers[i], p)
  }

  function To(s: State, i: nat, w: Writer): State
    requires i < |s.writers|
  {
    s.(writers := s.writers[i := w])
  }

  /** Takes the file's lock, and keeps it only if the file is not in progress yet. */
  function Entered(s: State, i: nat): State
    requires i < |s.writers| && s.writers[i].Entering?
  {
    var p, piece := s.writers[i].path, s.writers[i].piece;
    if p in s.inProgress then To(s, i, Acquiring(p, piece, false))
    else To(s, i, Acquiring(p, piece, true)).(inProgress := s.inProgress + {p})
  }

  /** Joins the users of the open handle, or opens the file, truncating it if it is to be created. */
  function Acquired(cfg: Config, s: State, i: nat): State
    requires cfg.Valid() && |s.buckets| == cfg.count && i < |s.writers| && s.writers[i].Acquiring?
  {
    var p, piece, creates := s.writers[i].path, s.writers[i].piece, s.writers[i].creates;
    var n := cfg.Of(p);
    var b := s.buckets[n];
    if p in b.files then
      var count := if p in b.users then b.users[p] else 0;
      To(s, i, Writing(p, piece, creates, b.files[p])).(buckets := s.buckets[n := b.(users := b.users[p := count + 1])])
    else
      To(s, i, Writing(p, piece, creates, s.next)).(
        buckets := s.buckets[n := Bucket(b.files[p := s.next], b.users[p := 1])],
        open := s.open + {s.next}, next := s.next + 1,
        disk := if creates then s.disk[p := cfg.created(p)] else s.disk,
        events := s.events + [if creates then Truncated(p) else Opened(p)])
  }

  /** The contents of a file after a write. */
  function Put(c: seq<byte>, piece: Piece): seq<byte> {
    if piece.offset >= 0 then Restores.WriteAt(c, piece.offset, piece.data) else c
  }

  /** Writes to the file, which changes nothing if the handle is not open. */
  function Written(s: State, i: nat): State
    requires i < |s.writers| && s.writers[i].Writing?
  {
    var w := s.writers[i];
    var open := w.handle in s.open;
    To(s, i, Releasing(w.path, w.creates, w.handle)).(
      disk := if open && w.path in s.disk then s.disk[w.path := Put(s.disk[w.path], w.piece)] else s.disk,
      events := s.events + [Wrote(w.path, w.piece, open)])
  }

  function Without<V>(m: map<Path, V>, p: Path): map<Path, V> {
    map q | q in m && q != p :: m[q]
  }

  /** Leaves the users of the handle; the last one closes it. */
  function Released(cfg: Config, s: State, i: nat): State
    requires cfg.Valid() && |s.buckets| == cfg.count && i < |s.writers| && s.writers[i].Releasing?
  {
    var w := s.writers[i];
    var n := cfg.Of(w.path);
    var b := s.buckets[n];
    var count := if w.path in b.users then b.users[w.path] else 0;
    if count == 1 then
      To(s, i, Leaving(w.path, w.creates)).(
        buckets := s.buckets[n := Bucket(Without(b.files, w.path), Without(b.users, w.path))],
        open := s.open - {w.handle})
    else
      To(s, i, Leaving(w.path, w.creates)).(buckets := s.buckets[n := b.(users := b.users[w.path := count - 1])])
  }

  /** A writer moves on.  A file that is not there cannot be opened without creating it. */
  ghost predicate Steps(cfg: Config, s: State, i: nat, s1: State) {
    && i < |s.writers| && cfg.Valid() && |s.buckets| == cfg.count
    && match s.writers[i]
       case Idle => exists p, piece :: s1 == To(s, i, Entering(p, piece))
       case Entering(p, _) => LockFree(s, p) && s1 == Entered(s, i)
       case Acquiring(p, _, creates) => CanOpen(cfg, s, p, creates) && s1 == Acquired(cfg, s, i)
       case Writing(_, _, _, _) => s1 == Written(s, i)
       case Releasing(_, _, _) => s1 == Released(cfg, s, i)
       case Leaving(_, _) => s1 == To(s, i, Idle)
  }

  ghost predicate CanOpen(cfg: Config, s: State, p: Path, creates: bool)
    requires cfg.Valid() && |s.buckets| == cfg.count
  {
    creates || p in s.disk || p in s.buckets[cfg.Of(p)].files
  }

  // ---------------------------------------------------------------- users

  ghost predicate UsesHandle(w: Writer, p: Path) {
    (w.Writing? || w.Releasing?) && w.path == p
  }

  ghost function Users(ws: seq<Writer>, p: Path): nat {
    if ws == [] then 0 else Users(ws[..|ws| - 1], p) + One(UsesHandle(ws[|ws| - 1], p))
  }

  lemma {:induction false} UsersUpdate(ws: seq<Writer>, i: nat, w: Writer, p: Path)
    requires i < |ws|
    ensures Users(ws[i := w], p) + One(UsesHandle(ws[i], p)) == Users(ws, p) + One(UsesHandle(w, p))
  {
    hide UsesHandle;
    var last := |ws| - 1;
    if i == last {
      assert ws[i := w][..last] == ws[..last];
    } else {
      UsersUpdate(ws[..last], i, w, p);
      assert ws[i := w][..last] == ws[..last][i := w];
    }
  }

  lemma {:induction false} NoUsers(ws: seq<Writer>, p: Path, i: nat)
    requires Users(ws, p) == 0 && i < |ws|
    ensures !UsesHandle(ws[i], p)
  {
    if i < |ws| - 1 {
      NoUsers(ws[..|ws| - 1], p, i);
    }
  }

  ghost function HandleOf(cfg: Config, s: State, p: Path): Option<nat>
    requires cfg.Valid() && |s.buckets| == cfg.count
  {
    var b := s.buckets[cfg.Of(p)];
    if p in b.files then Some(b.files[p]) else None
  }

  ghost function CountOf(cfg: Config, s: State, p: Path): int
    requires cfg.Valid() && |s.buckets| == cfg.count
  {
    var b := s.buckets[cfg.Of(p)];
    if p in b.users then b.users[p] else 0
  }

  lemma AcquiredBuckets(cfg: Config, s: State, i: nat, q: Path)
    requires cfg.Valid() && |s.buckets| == cfg.count && i < |s.writers| && s.writers[i].Acquiring?
    ensures var s1, p := Acquired(cfg, s, i), s.writers[i].path;
            && |s1.buckets| == cfg.count
            && HandleOf(cfg, s1, q) ==
               (if q == p && HandleOf(cfg, s, p).None? then Some(s.next) else HandleOf(cfg, s, q))
            && CountOf(cfg, s1, q) ==
               (if q != p then CountOf(cfg, s, q) else if HandleOf(cfg, s, p).None? then 1 else CountOf(cfg, s, p) + 1)
  {
  }

  lemma ReleasedBuckets(cfg: Config, s: State, i: nat, q: Path)
    requires cfg.Valid() && |s.buckets| == cfg.count && i < |s.writers| && s.writers[i].Releasing?
    ensures var s1, p := Released(cfg, s, i), s.writers[i].path;
            && |s1.buckets| == cfg.count
            && HandleOf(cfg, s1, q) == (if q == p && CountOf(cfg, s, p) == 1 then None else HandleOf(cfg, s, q))
            && CountOf(cfg, s1, q) == (if q == p then CountOf(cfg, s, p) - 1 else CountOf(cfg, s, q))
  {
  }

  /** The user count is the number of writers between acquiring and releasing, who share the open handle. */
  ghost predicate Counted(cfg: Config, s: State, p: Path)
    requires cfg.Valid() && |s.buckets| == cfg.count
  {
    && CountOf(cfg, s, p) == Users(s.writers, p)
    && (HandleOf(cfg, s, p).Some? <==> Users(s.writers, p) > 0)
    && (HandleOf(cfg, s, p).Some? ==> HandleOf(cfg, s, p).value in s.open && HandleOf(cfg, s, p).value < s.next)
    && Shared(s.writers, p, HandleOf(cfg, s, p))
  }

  ghost predicate Shared(ws: seq<Writer>, p: Path, handle: Option<nat>) {
    forall i :: 0 <= i < |ws| && UsesHandle(ws[i], p) ==> handle == Some(ws[i].handle)
  }

  /** Different files have different handles. */
  ghost predicate Apart(cfg: Config, s: State, p: Path, q: Path)
    requires cfg.Valid() && |s.buckets| == cfg.count
  {
    p != q && HandleOf(cfg, s, p).Some? ==> HandleOf(cfg, s, p) != HandleOf(cfg, s, q)
  }

  lemma AcquireCounted(cfg: Config, s: State, i: nat, p: Path)
    requires cfg.Valid() && |s.buckets| == cfg.count && i < |s.writers| && s.writers[i].Acquiring? && Counted(cfg, s, p)
    ensures |Acquired(cfg, s, i).buckets| == cfg.count && Counted(cfg, Acquired(cfg, s, i), p)
  {
    hide HandleOf;
    hide CountOf;
    hide Users;
    var s1 := Acquired(cfg, s, i);
    AcquiredBuckets(cfg, s, i, p);
    AcquiredWriter(cfg, s, i);
    UsersUpdate(s.writers, i, s1.writers[i], p);
    if Users(s.writers, p) == 0 {
      forall j | 0 <= j < |s.writers| ensures !UsesHandle(s.writers[j], p) {
        NoUsers(s.writers, p, j);
      }
    }
  }

  lemma AcquiredWriter(cfg: Config, s: State, i: nat)
    requires cfg.Valid() && |s.buckets| == cfg.count && i < |s.writers| && s.writers[i].Acquiring?
    ensures var s1, w := Acquired(cfg, s, i), s.writers[i];
            var handle := if HandleOf(cfg, s, w.path).Some? then HandleOf(cfg, s, w.path).value else s.next;
            && s1.writers == s.writers[i := Writing(w.path, w.piece, w.creates, handle)]
            && s1.inProgress == s.inProgress
            && s1.open == s.open + (if HandleOf(cfg, s, w.path).Some? then {} else {s.next}) && s1.next >= s.next
            && (HandleOf(cfg, s, w.path).None? ==> s1.next == s.next + 1)
  {
  }

  lemma ReleaseCounted(cfg: Config, s: State, i: nat, p: Path)
    requires cfg.Valid() && |s.buckets| == cfg.count && i < |s.writers| && s.writers[i].Releasing?
    requires Counted(cfg, s, p) && Counted(cfg, s, s.writers[i].path) && Apart(cfg, s, p, s.writers[i].path)
    ensures |Released(cfg, s, i).buckets| == cfg.count && Counted(cfg, Released(cfg, s, i), p)
  {
    hide HandleOf;
    hide CountOf;
    hide Users;
    var s1, w := Released(cfg, s, i), s.writers[i];
    ReleasedBuckets(cfg, s, i, p);
    ReleasedWriter(cfg, s, i);
    UsersUpdate(s.writers, i, s1.writers[i], p);
    if Users(s1.writers, p) == 0 {
      forall j | 0 <= j < |s1.writers| ensures !UsesHandle(s1.writers[j], p) {
        NoUsers(s1.writers, p, j);
      }
    }
  }

  lemma ReleasedWriter(cfg: Config, s: State, i: nat)
    requires cfg.Valid() && |s.buckets| == cfg.count && i < |s.writers| && s.writers[i].Releasing?
    ensures var s1, w := Released(cfg, s, i), s.writers[i];
            && s1.writers == s.writers[i := Leaving(w.path, w.creates)] && s1.inProgress == s.inProgress
            && s1.open == (if CountOf(cfg, s, w.path) == 1 then s.open - {w.handle} else s.open) && s1.next == s.next
  {
  }

  /** A step that touches no handle. */
  lemma OtherCounted(cfg: Config, s: State, s1: State, i: nat, w: Writer, p: Path)
    requires cfg.Valid() && |s.buckets| == cfg.count && i < |s.writers| && Counted(cfg, s, p)
    requires s1.writers == s.writers[i := w] && s1.buckets == s.buckets && s1.open == s.open && s1.next == s.next
    requires UsesHandle(w, p) == UsesHandle(s.writers[i], p) && (UsesHandle(w, p) ==> w.handle == s.writers[i].handle)
    ensures Counted(cfg, s1, p)
  {
    hide Users;
    UsersUpdate(s.writers, i, w, p);
  }

  lemma StepCounted(cfg: Config, s: State, i: nat, s1: State, p: Path)
    requires Steps(cfg, s, i, s1) && Counted(cfg, s, p)
    requires s.writers[i].Releasing? ==> Counted(cfg, s, s.writers[i].path) && Apart(cfg, s, p, s.writers[i].path)
    ensures |s1.buckets| == cfg.count && Counted(cfg, s1, p)
  {
    hide Counted;
    hide Apart;
    hide Acquired;
    hide Released;
    hide LockFree;
    hide CanOpen;
    match s.writers[i]
    case Acquiring(_, _, _) => AcquireCounted(cfg, s, i, p);
    case Releasing(_, _, _) => ReleaseCounted(cfg, s, i, p);
    case _ => OtherCounted(cfg, s, s1, i, s1.writers[i], p);
  }

  lemma StepApart(cfg: Config, s: State, i: nat, s1: State, p: Path, q: Path)
    requires Steps(cfg, s, i, s1) && Apart(cfg, s, p, q) && Counted(cfg, s, p) && Counted(cfg, s, q)
    ensures |s1.buckets| == cfg.count && Apart(cfg, s1, p, q)
  {
    hide HandleOf;
    hide CountOf;
    hide Users;
    hide Shared;
    hide Acquired;
    hide Released;
    hide LockFree;
    hide CanOpen;
    match s.writers[i]
    case Acquiring(_, _, _) =>
      AcquiredBuckets(cfg, s, i, p);
      AcquiredBuckets(cfg, s, i, q);
    case Releasing(_, _, _) =>
      ReleasedBuckets(cfg, s, i, p);
      ReleasedBuckets(cfg, s, i, q);
    case _ =>
      SameHandles(cfg, s, s1, p);
      SameHandles(cfg, s, s1, q);
  }

  lemma SameHandles(cfg: Config, s: State, s1: State, p: Path)
    requires cfg.Valid() && |s.buckets| == cfg.count && s1.buckets == s.buckets
    ensures HandleOf(cfg, s1, p) == HandleOf(cfg, s, p)
  {
  }

  // ---------------------------------------------------------------- creation

  ghost function Truncations(events: seq<Event>, p: Path): nat {
    if events == [] then 0 else Truncations(events[..|events| - 1], p) + One(events[|events| - 1] == Truncated(p))
  }

  ghost predicate Untouched(events: seq<Event>, p: Path) {
    forall i :: 0 <= i < |events| ==> events[i].path != p
  }

  /** Whatever else happens to a file happens after it was truncated. */
  ghost predicate TruncatedFirst(events: seq<Event>, p: Path) {
    forall i :: 0 <= i < |events| && events[i].path == p && !events[i].Truncated? ==> Truncations(events[..i], p) > 0
  }

  lemma EventsPush(events: seq<Event>, e: Event, p: Path)
    ensures Truncations(events + [e], p) == Truncations(events, p) + One(e == Truncated(p))
    ensures Untouched(events, p) && e.path != p ==> Untouched(events + [e], p)
    ensures TruncatedFirst(events, p) && (e.path != p || e.Truncated? || Truncations(events, p) > 0) ==>
              TruncatedFirst(events + [e], p)
  {
    var all := events + [e];
    assert all[..|events|] == events;
    if TruncatedFirst(events, p) && (e.path != p || e.Truncated? || Truncations(events, p) > 0) {
      forall i | 0 <= i < |all| && all[i].path == p && !all[i].Truncated? ensures Truncations(all[..i], p) > 0 {
        if i < |events| {
          assert all[i] == events[i] && all[..i] == events[..i];
        }
      }
    }
  }

  lemma {:induction false} UntouchedMeans(events: seq<Event>, p: Path)
    requires Untouched(events, p)
    ensures Truncations(events, p) == 0
  {
    if events != [] {
      UntouchedMeans(events[..|events| - 1], p);
    }
  }

  /** The writer has passed the file's lock. */
  ghost predicate Beyond(w: Writer, p: Path) {
    !w.Idle? && !w.Entering? && w.path == p
  }

  ghost predicate NoneBeyond(ws: seq<Writer>, p: Path) {
    forall i :: 0 <= i < |ws| ==> !Beyond(ws[i], p)
  }

  /** Writer i is the only one beyond the lock. */
  ghost predicate Alone(ws: seq<Writer>, i: nat, p: Path) {
    forall j :: 0 <= j < |ws| && j != i ==> !Beyond(ws[j], p)
  }

  ghost predicate Creating(w: Writer, p: Path) {
    w.Acquiring? && w.path == p && w.creates
  }

  ghost predicate NoneCreating(ws: seq<Writer>, p: Path) {
    forall i :: 0 <= i < |ws| ==> !Creating(ws[i], p)
  }

  /**
   A file is untouched until its first writer, which is alone beyond the lock, has
   created it; then it has been truncated once, before anything else.
   */
  ghost predicate Created(s: State, p: Path) {
    && (p !in s.inProgress ==> NoneBeyond(s.writers, p) && Untouched(s.events, p))
    && (forall i :: 0 <= i < |s.writers| && Creating(s.writers[i], p) ==>
          Alone(s.writers, i, p) && Untouched(s.events, p))
    && (p in s.inProgress && NoneCreating(s.writers, p) ==> Truncations(s.events, p) == 1 && p in s.disk)
    && TruncatedFirst(s.events, p)
  }

  /** If some writer is beyond the lock and not creating the file, the file has been created. */
  lemma BeyondCreated(s: State, i: nat, p: Path)
    requires Created(s, p) && i < |s.writers| && Beyond(s.writers[i], p) && !Creating(s.writers[i], p)
    ensures p in s.inProgress && NoneCreating(s.writers, p) && Truncations(s.events, p) == 1 && p in s.disk
  {
  }

  lemma EnterCreated(s: State, i: nat, p: Path)
    requires i < |s.writers| && s.writers[i].Entering? && LockFree(s, s.writers[i].path) && Created(s, p)
    ensures Created(Entered(s, i), p)
  {
    hide TruncatedFirst;
    hide Untouched;
    hide Truncations;
    var s1 := Entered(s, i);
    assert forall j :: 0 <= j < |s.writers| && j != i ==> s1.writers[j] == s.writers[j];
    if s.writers[i].path == p {
      forall j | 0 <= j < |s.writers| ensures !Creating(s.writers[j], p) {
        assert !Holds(s.writers[j], p);
      }
      if p in s.inProgress {
        assert NoneCreating(s.writers, p) && NoneCreating(s1.writers, p);
      } else {
        assert Creating(s1.writers[i], p);
      }
    } else {
      OtherPath(s, i, s1, p);
    }
  }

  /** A writer of another file changes nothing for this one. */
  lemma OtherPath(s: State, i: nat, s1: State, p: Path)
    requires i < |s.writers| && Created(s, p) && !Beyond(s.writers[i], p)
    requires |s1.writers| == |s.writers| && forall j :: 0 <= j < |s.writers| && j != i ==> s1.writers[j] == s.writers[j]
    requires !Beyond(s1.writers[i], p) && (p in s1.inProgress <==> p in s.inProgress) && s.disk.Keys <= s1.disk.Keys
    requires TruncatedFirst(s1.events, p) && Truncations(s1.events, p) == Truncations(s.events, p)
    requires Untouched(s.events, p) ==> Untouched(s1.events, p)
    ensures Created(s1, p)
  {
    hide TruncatedFirst;
    hide Untouched;
    hide Truncations;
    assert NoneCreating(s1.writers, p) ==> NoneCreating(s.writers, p);
  }

  /** A writer that goes on with a file that has been created. */
  lemma GoesOn(s: State, i: nat, s1: State, w: Writer, p: Path)
    requires i < |s.writers| && Created(s, p) && Beyond(s.writers[i], p) && !Creating(s.writers[i], p)
    requires s1.writers == s.writers[i := w] && !Creating(w, p) && s1.inProgress == s.inProgress
             && s.disk.Keys <= s1.disk.Keys
    requires TruncatedFirst(s1.events, p) && Truncations(s1.events, p) == Truncations(s.events, p)
    ensures Created(s1, p)
  {
    hide TruncatedFirst;
    hide Untouched;
    hide Truncations;
    BeyondCreated(s, i, p);
  }

  lemma AcquireCreated(cfg: Config, s: State, i: nat, p: Path)
    requires cfg.Valid() && |s.buckets| == cfg.count && i < |s.writers| && s.writers[i].Acquiring?
    requires Created(s, p) && Counted(cfg, s, p)
    ensures Created(Acquired(cfg, s, i), p)
  {
    hide TruncatedFirst;
    hide Untouched;
    hide Truncations;
    hide Users;
    var s1, w := Acquired(cfg, s, i), s.writers[i];
    EventsPush(s.events, if w.creates then Truncated(w.path) else Opened(w.path), p);
    if w.path != p {
      OtherPath(s, i, s1, p);
    } else if w.creates {
      assert Creating(w, p);
      AloneNoUsers(s.writers, i, p);
      UntouchedMeans(s.events, p);
      assert s1.events == s.events + [Truncated(p)];
      assert NoneCreating(s1.writers, p);
    } else {
      BeyondCreated(s, i, p);
      GoesOn(s, i, s1, s1.writers[i], p);
    }
  }

  lemma AloneNoUsers(ws: seq<Writer>, i: nat, p: Path)
    requires i < |ws| && Alone(ws, i, p) && !UsesHandle(ws[i], p)
    ensures Users(ws, p) == 0
  {
    assert forall j :: 0 <= j < |ws| ==> UsesHandle(ws[j], p) ==> Beyond(ws[j], p);
    NoneUsing(ws, p);
  }

  lemma {:induction false} NoneUsing(ws: seq<Writer>, p: Path)
    requires forall j :: 0 <= j < |ws| ==> !UsesHandle(ws[j], p)
    ensures Users(ws, p) == 0
  {
    if ws != [] {
      NoneUsing(ws[..|ws| - 1], p);
    }
  }

  lemma WriteCreated(s: State, i: nat, p: Path)
    requires i < |s.writers| && s.writers[i].Writing? && Created(s, p)
    ensures Created(Written(s, i), p)
  {
    hide TruncatedFirst;
    hide Untouched;
    hide Truncations;
    var s1, w := Written(s, i), s.writers[i];
    EventsPush(s.events, Wrote(w.path, w.piece, w.handle in s.open), p);
    if w.path != p {
      OtherPath(s, i, s1, p);
    } else {
      BeyondCreated(s, i, p);
      GoesOn(s, i, s1, s1.writers[i], p);
    }
  }

  lemma StepCreated(cfg: Config, s: State, i: nat, s1: State, p: Path)
    requires Steps(cfg, s, i, s1) && Created(s, p) && Counted(cfg, s, p)
    ensures Created(s1, p)
  {
    hide Created;
    hide Counted;
    hide Acquired;
    match s.writers[i]
    case Entering(_, _) => EnterCreated(s, i, p);
    case Acquiring(_, _, _) => AcquireCreated(cfg, s, i, p);
    case Writing(_, _, _, _) => WriteCreated(s, i, p);
    case _ => QuietCreated(s, i, s1, p);
  }

  /** Starting, releasing and leaving. */
  lemma QuietCreated(s: State, i: nat, s1: State, p: Path)
    requires i < |s.writers| && Created(s, p) && s1.events == s.events && s1.inProgress == s.inProgress
             && s1.disk == s.disk
    requires |s1.writers| == |s.writers| && s1.writers == s.writers[i := s1.writers[i]]
    requires match s.writers[i]
             case Idle => s1.writers[i].Entering?
             case Releasing(q, c, _) => s1.writers[i] == Leaving(q, c)
             case Leaving(_, _) => s1.writers[i] == Idle
             case _ => false
    ensures Created(s1, p)
  {
    hide TruncatedFirst;
    hide Untouched;
    hide Truncations;
    if Beyond(s.writers[i], p) {
      GoesOn(s, i, s1, s1.writers[i], p);
    } else {
      OtherPath(s, i, s1, p);
    }
  }

  // ---------------------------------------------------------------- every run

  /** No write went to a closed handle. */
  ghost predicate WritesOpen(events: seq<Event>) {
    forall i :: 0 <= i < |events| && events[i].Wrote? ==> events[i].open
  }

  ghost predicate Initial(cfg: Config, s: State) {
    && cfg.Valid() && |s.buckets| == cfg.count
    && (forall b :: 0 <= b < cfg.count ==> s.buckets[b] == Bucket(map[], map[]))
    && s.inProgress == {} && s.events == [] && forall i :: 0 <= i < |s.writers| ==> s.writers[i] == Idle
  }

  ghost predicate Inv(cfg: Config, s: State) {
    && cfg.Valid() && |s.buckets| == cfg.count && WritesOpen(s.events)
    && (forall p :: Counted(cfg, s, p)) && (forall p :: Created(s, p)) && (forall p, q :: Apart(cfg, s, p, q))
  }

  ghost predicate IsRun(cfg: Config, run: seq<State>, moves: seq<nat>) {
    && |run| == |moves| + 1 && Initial(cfg, run[0])
    && forall k :: 0 <= k < |moves| ==> Steps(cfg, run[k], moves[k], run[k + 1])
  }

  lemma InitialInv(cfg: Config, s: State)
    requires Initial(cfg, s)
    ensures Inv(cfg, s)
  {
    forall p ensures Counted(cfg, s, p) {
      NoneUsing(s.writers, p);
    }
  }

  lemma StepInv(cfg: Config, s: State, i: nat, s1: State)
    requires Inv(cfg, s) && Steps(cfg, s, i, s1)
    ensures Inv(cfg, s1)
  {
    hide Counted;
    hide Created;
    hide Apart;
    hide Steps;
    StepsWriter(cfg, s, i, s1);
    StepEvents(cfg, s, i, s1);
    forall p ensures Counted(cfg, s1, p) && Created(s1, p) {
      StepCounted(cfg, s, i, s1, p);
      StepCreated(cfg, s, i, s1, p);
    }
    forall p, q ensures Apart(cfg, s1, p, q) {
      StepApart(cfg, s, i, s1, p, q);
    }
  }

  lemma StepsWriter(cfg: Config, s: State, i: nat, s1: State)
    requires Steps(cfg, s, i, s1)
    ensures i < |s.writers| && |s1.buckets| == cfg.count
  {
  }

  lemma StepEvents(cfg: Config, s: State, i: nat, s1: State)
    requires Inv(cfg, s) && Steps(cfg, s, i, s1)
    ensures WritesOpen(s1.events)
  {
    hide Created;
    hide Apart;
    hide Users;
    hide CountOf;
    hide HandleOf;
    hide LockFree;
    hide CanOpen;
    if s.writers[i].Writing? {
      assert Counted(cfg, s, s.writers[i].path);
      assert UsesHandle(s.writers[i], s.writers[i].path);
    }
  }

  /** The invariant holds in every state of every run, however the writers interleave. */
  lemma {:induction false} RunInv(cfg: Config, run: seq<State>, moves: seq<nat>, k: nat)
    requires IsRun(cfg, run, moves) && k <= |moves|
    ensures Inv(cfg, run[k])
  {
    hide Inv;
    hide Steps;
    hide Initial;
    if k == 0 {
      InitialInv(cfg, run[0]);
    } else {
      RunInv(cfg, run, moves, k - 1);
      assert Steps(cfg, run[k - 1], moves[k - 1], run[k - 1 + 1]);
      StepInv(cfg, run[k - 1], moves[k - 1], run[k]);
    }
  }

  lemma InvCreatedOnce(cfg: Config, s: State, p: Path)
    requires Inv(cfg, s)
    ensures Truncations(s.events, p) <= 1 && TruncatedFirst(s.events, p) && WritesOpen(s.events)
  {
    hide Counted;
    hide Apart;
    hide TruncatedFirst;
    hide Truncations;
    assert Created(s, p);
    if p !in s.inProgress || !NoneCreating(s.writers, p) {
      UntouchedMeans(s.events, p);
    }
  }

  /** A file is truncated at most once, and before anything else is done to it. */
  lemma CreatedOnce(cfg: Config, run: seq<State>, moves: seq<nat>, k: nat, p: Path)
    requires IsRun(cfg, run, moves) && k <= |moves|
    ensures Truncations(run[k].events, p) <= 1 && TruncatedFirst(run[k].events, p) && WritesOpen(run[k].events)
  {
    hide Steps;
    hide Initial;
    hide Inv;
    hide TruncatedFirst;
    hide Truncations;
    hide WritesOpen;
    RunInv(cfg, run, moves, k);
    InvCreatedOnce(cfg, run[k], p);
  }

  /** The handle of a file is open exactly while it has users, and their number is counted. */
  lemma OpenWhileUsed(cfg: Config, run: seq<State>, moves: seq<nat>, k: nat, p: Path)
    requires IsRun(cfg, run, moves) && k <= |moves|
    ensures cfg.Valid() && |run[k].buckets| == cfg.count
    ensures CountOf(cfg, run[k], p) == Users(run[k].writers, p)
    ensures HandleOf(cfg, run[k], p).Some? <==> Users(run[k].writers, p) > 0
    ensures HandleOf(cfg, run[k], p).Some? ==> HandleOf(cfg, run[k], p).value in run[k].open
  {
    hide Steps;
    hide Initial;
    hide Created;
    hide Apart;
    hide Users;
    hide CountOf;
    hide HandleOf;
    RunInv(cfg, run, moves, k);
    assert Counted(cfg, run[k], p);
  }

  /** A writer that does not create a file finds it there. */
  lemma FindsFile(cfg: Config, s: State, i: nat)
    requires Inv(cfg, s) && i < |s.writers| && s.writers[i].Acquiring?
    ensures CanOpen(cfg, s, s.writers[i].path, s.writers[i].creates)
  {
    hide Counted;
    hide Apart;
    hide TruncatedFirst;
    hide Truncations;
    if !s.writers[i].creates {
      assert Created(s, s.writers[i].path);
      BeyondCreated(s, i, s.writers[i].path);
    }
  }

  ghost predicate CanMove(cfg: Config, s: State, i: nat) {
    exists s1 :: Steps(cfg, s, i, s1)
  }

  /** A writer that is not waiting for a lock can go on. */
  lemma NotWaiting(cfg: Config, s: State, i: nat)
    requires Inv(cfg, s) && i < |s.writers| && !s.writers[i].Idle?
    requires s.writers[i].Entering? ==> LockFree(s, s.writers[i].path)
    ensures CanMove(cfg, s, i)
  {
    hide Acquired;
    hide Released;
    hide LockFree;
    hide CanOpen;
    match s.writers[i]
    case Entering(_, _) => assert Steps(cfg, s, i, Entered(s, i));
    case Acquiring(_, _, _) =>
      FindsFile(cfg, s, i);
      assert Steps(cfg, s, i, Acquired(cfg, s, i));
    case Writing(_, _, _, _) => assert Steps(cfg, s, i, Written(s, i));
    case Releasing(_, _, _) => assert Steps(cfg, s, i, Released(cfg, s, i));
    case Leaving(_, _) => assert Steps(cfg, s, i, To(s, i, Idle));
  }

  /** While writers are at work, one of them can go on: who waits for a lock waits for one that can. */
  lemma NeverStuck(cfg: Config, s: State, i: nat) returns (j: nat)
    requires Inv(cfg, s) && i < |s.writers| && !s.writers[i].Idle?
    ensures j < |s.writers| && !s.writers[j].Idle? && CanMove(cfg, s, j)
  {
    hide Inv;
    hide CanMove;
    j := i;
    if s.writers[i].Entering? && !LockFree(s, s.writers[i].path) {
      j :| 0 <= j < |s.writers| && Holds(s.writers[j], s.writers[i].path);
    }
    NotWaiting(cfg, s, j);
  }

  // ---------------------------------------------------------------- the writer object

  /** The buckets, and the file system underneath: open handles and existing files. */
  class FilesWriter {
    const cfg: Config
    const buckets: array<Bucket>
    var open: set<nat>
    var next: nat
    var disk: map<Path, seq<byte>>

    /** The object is in the given state of the protocol. */
    ghost predicate IsIn(s: State)
      reads this, buckets
    {
      && cfg.Valid() && buckets.Length == cfg.count && s.buckets == buckets[..]
      && s.open == open && s.next == next && s.disk == disk
    }

    constructor (cfg: Config)
      requires cfg.Valid()
      ensures this.cfg == cfg && fresh(buckets) && IsIn(State(buckets[..], {}, 0, map[], {}, [], []))
      ensures forall b :: 0 <= b < buckets.Length ==> buckets[b] == Bucket(map[], map[])
    {
      this.cfg := cfg;
      buckets := new Bucket[cfg.count](_ => Bucket(map[], map[]));
      open, next, disk := {}, 0, map[];
    }

    /** The acquire step: fails exactly if a file is to be opened that is not there. */
    method AcquireWriter(path: Path, createSize: int, ghost piece: Piece, ghost s: State, ghost i: nat)
      returns (ok: bool, handle: nat)
      requires IsIn(s) && i < |s.writers| && s.writers[i] == Acquiring(path, piece, createSize >= 0)
      modifies this, buckets
      ensures ok <==> CanOpen(cfg, s, path, createSize >= 0)
      ensures ok ==>
                && IsIn(Acquired(cfg, s, i))
                && Acquired(cfg, s, i).writers[i] == Writing(path, piece, createSize >= 0, handle)
      ensures !ok ==> IsIn(s)
    {
      var n := cfg.Of(path);
      var b := buckets[n];
      if path in b.files {
        var count := if path in b.users then b.users[path] else 0;
        buckets[n] := b.(users := b.users[path := count + 1]);
        return true, b.files[path];
      }
      if createSize < 0 && path !in disk {
        return false, 0;
      }
      handle := next;
      next := next + 1;
      open := open + {handle};
      if createSize >= 0 {
        disk := disk[path := cfg.created(path)];
      }
      buckets[n] := Bucket(b.files[path := handle], b.users[path := 1]);
      ok := true;
    }

    /** The write step. */
    method WriteAt(path: Path, handle: nat, piece: Piece, ghost s: State, ghost i: nat)
      requires IsIn(s) && i < |s.writers| && s.writers[i].Writing?
      requires s.writers[i].path == path && s.writers[i].handle == handle && s.writers[i].piece == piece
      modifies this
      ensures IsIn(Written(s, i))
    {
      if handle in open && path in disk {
        disk := disk[path := Put(disk[path], piece)];
      }
    }

    /** The release step. */
    method ReleaseWriter(path: Path, handle: nat, ghost s: State, ghost i: nat)
      requires IsIn(s) && i < |s.writers| && s.writers[i].Releasing?
      requires s.writers[i].path == path && s.writers[i].handle == handle
      modifies this, buckets
      ensures IsIn(Released(cfg, s, i))
    {
      var n := cfg.Of(path);
      var b := buckets[n];
      var count := if path in b.users then b.users[path] else 0;
      if count == 1 {
        buckets[n] := Bucket(Without(b.files, path), Without(b.users, path));
        open := open - {handle};
        return;
      }
      buckets[n] := b.(users := b.users[path := count - 1]);
    }
  }
}
