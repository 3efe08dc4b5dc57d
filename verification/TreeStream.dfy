/**
 The traversal that garbage collection relies on: an event loop hands out tree
 identifiers to loaders, takes loaded trees back and streams them to a consumer,
 which collects the file blobs.  All of them work on one set of used blobs.
 */
module TreeStreams {
  import opened Blobs

  datatype Node = Node(tpe: string, subtree: Option<Id>, content: seq<Id>)

  datatype Tree = Tree(nodes: seq<Node>)

  type Graph = map<Id, Tree>

  /** A tree identifier and the position of the root it was reached from. */
  datatype Tracked = Tracked(id: Id, root: nat)

  /**
   The event loop: the backlog, the identifier to be handed to a loader, the
   identifiers with the loaders and how many the loop takes them to be, the tree
   to be streamed, and the tree with the consumer; the used blobs; and per root the
   number of live identifiers and of progress reports.  `loads` records what was
   handed to the loaders.
   */
  datatype State = State(backlog: seq<Tracked>, next: Option<Tracked>, loading: seq<Tracked>, outstanding: int,
                         out: Option<Id>, busy: Option<Id>,
                         blobs: set<BlobHandle>, rootCounter: seq<int>, reports: seq<nat>, loads: seq<Id>)

  /** The subtrees of the directories among some nodes, in order. */
  function Subtrees(nodes: seq<Node>): seq<Id> {
    if nodes == [] then []
    else
      var rest, node := Subtrees(nodes[..|nodes| - 1]), nodes[|nodes| - 1];
      if node.tpe == "dir" && node.subtree.Some? then rest + [node.subtree.value] else rest
  }

  /** The subtrees are those that some directory names. */
  lemma {:induction false} SubtreesMember(nodes: seq<Node>, id: Id)
    ensures id in Subtrees(nodes) <==> exists node :: node in nodes && node.tpe == "dir" && node.subtree == Some(id)
  {
    if nodes != [] {
      var init, node := nodes[..|nodes| - 1], nodes[|nodes| - 1];
      SubtreesMember(init, id);
      assert nodes == init + [node];
      assert node in nodes && forall n :: n in nodes <==> n in init || n == node;
    }
  }

  /** The blobs of the files in a tree. */
  function ContentOf(t: Tree): set<BlobHandle> {
    set node, id | node in t.nodes && node.tpe == "file" && id in node.content :: DataHandle(id)
  }

  function TreeHandle(id: Id): BlobHandle {
    BlobHandle(id, TreeBlob)
  }

  function DataHandle(id: Id): BlobHandle {
    BlobHandle(id, DataBlob)
  }

  // ---------------------------------------------------------------- steps

  function Start(roots: seq<Id>, blobs: set<BlobHandle>): State {
    State(seq(|roots|, i requires 0 <= i < |roots| => Tracked(roots[i], i)), None, [], 0, None, None, blobs,
          seq(|roots|, _ => 1), seq(|roots|, _ => 0), [])
  }

  predicate InRange(s: State, r: nat) {
    r < |s.rootCounter| == |s.reports|
  }

  /** Reports progress when a root has no live identifiers left. */
  function Report(s: State, r: nat): State
    requires InRange(s, r)
  {
    if s.rootCounter[r] == 0 then s.(reports := s.reports[r := s.reports[r] + 1]) else s
  }

  /** Takes the last identifier of the backlog; a tree that is already used is skipped. */
  function Pop(s: State): State
    requires s.next.None? && s.backlog != [] && InRange(s, s.backlog[|s.backlog| - 1].root)
  {
    var t := s.backlog[|s.backlog| - 1];
    var s1 := s.(backlog := s.backlog[..|s.backlog| - 1]);
    if TreeHandle(t.id) in s.blobs then
      Report(s1.(rootCounter := s.rootCounter[t.root := s.rootCounter[t.root] - 1]), t.root)
    else
      s1.(blobs := s.blobs + {TreeHandle(t.id)}, next := Some(t))
  }

  /** Hands an identifier to a loader. */
  function Send(s: State): State
    requires s.next.Some?
  {
    s.(next := None, loading := s.loading + [s.next.value], outstanding := s.outstanding + 1,
       loads := s.loads + [s.next.value.id])
  }

  /** The subtrees to visit, last first; null identifiers are left out. */
  function Children(subtrees: seq<Id>, root: nat): seq<Tracked> {
    if subtrees == [] then []
    else
      var rest := Children(subtrees[1..], root);
      if subtrees[0] == NullId() then rest else rest + [Tracked(subtrees[0], root)]
  }

  /** Takes a loaded tree back and puts its subtrees on the backlog. */
  function Receive(g: Graph, s: State, k: nat): State
    requires k < |s.loading| && s.loading[k].id in g && InRange(s, s.loading[k].root)
  {
    var t := s.loading[k];
    var more := Children(Subtrees(g[t.id].nodes), t.root);
    Report(s.(loading := s.loading[..k] + s.loading[k + 1..], outstanding := s.outstanding - 1, out := Some(t.id),
              backlog := s.backlog + more,
              rootCounter := s.rootCounter[t.root := s.rootCounter[t.root] - 1 + |more|]), t.root)
  }

  /** Streams a tree to the consumer. */
  function Deliver(s: State): State
    requires s.out.Some? && s.busy.None?
  {
    s.(out := None, busy := s.out)
  }

  /** The consumer adds the file blobs of a tree. */
  function Consume(g: Graph, s: State): State
    requires s.busy.Some? && s.busy.value in g
  {
    s.(busy := None, blobs := s.blobs + ContentOf(g[s.busy.value]))
  }

  // ---------------------------------------------------------------- what is to be found

  /** The subtrees that are followed. */
  ghost predicate Edge(g: Graph, a: Id, b: Id) {
    a in g && b in Subtrees(g[a].nodes) && b != NullId()
  }

  ghost predicate IsPath(g: Graph, roots: seq<Id>, p: seq<Id>) {
    p != [] && p[0] in roots && forall i :: 0 <= i < |p| - 1 ==> Edge(g, p[i], p[i + 1])
  }

  ghost predicate Reachable(g: Graph, roots: seq<Id>, id: Id) {
    exists p :: IsPath(g, roots, p) && p[|p| - 1] == id
  }

  /** Every tree that can be asked for can be loaded. */
  ghost predicate AllLoad(g: Graph, roots: seq<Id>) {
    && (forall id :: id in roots ==> id in g)
    && (forall a, b :: Edge(g, a, b) ==> b in g)
  }

  /** Whatever a used tree refers to is used as well. */
  ghost predicate Closed(g: Graph, blobs: set<BlobHandle>) {
    forall id :: id in g && TreeHandle(id) in blobs ==>
      ContentOf(g[id]) <= blobs && forall c :: Edge(g, id, c) ==> TreeHandle(c) in blobs
  }

  /** A handle that has to be found. */
  ghost predicate Wanted(g: Graph, roots: seq<Id>, h: BlobHandle) {
    || (h.tpe == TreeBlob && Reachable(g, roots, h.id))
    || (h.tpe == DataBlob && exists t :: t in g && Reachable(g, roots, t) && h in ContentOf(g[t]))
  }

  lemma RootReachable(g: Graph, roots: seq<Id>, id: Id)
    requires id in roots
    ensures Reachable(g, roots, id)
  {
    assert IsPath(g, roots, [id]);
  }

  lemma EdgeReachable(g: Graph, roots: seq<Id>, a: Id, b: Id)
    requires Reachable(g, roots, a) && Edge(g, a, b)
    ensures Reachable(g, roots, b)
  {
    var p :| IsPath(g, roots, p) && p[|p| - 1] == a;
    assert IsPath(g, roots, p + [b]);
  }

  /** A set that contains the roots and is closed under edges contains everything reachable. */
  lemma {:induction false} ClosedContains(g: Graph, roots: seq<Id>, found: set<BlobHandle>, p: seq<Id>, i: nat)
    requires IsPath(g, roots, p) && i < |p|
    requires forall id :: id in roots ==> TreeHandle(id) in found
    requires forall a, b :: TreeHandle(a) in found && Edge(g, a, b) ==> TreeHandle(b) in found
    ensures TreeHandle(p[i]) in found
  {
    if i > 0 {
      ClosedContains(g, roots, found, p, i - 1);
      assert Edge(g, p[i - 1], p[i - 1 + 1]);
    }
  }

  lemma {:induction false} ChildrenMeaning(subtrees: seq<Id>, root: nat, t: Tracked)
    ensures t in Children(subtrees, root) <==> t.root == root && t.id in subtrees && t.id != NullId()
  {
    if subtrees != [] {
      ChildrenMeaning(subtrees[1..], root, t);
      assert subtrees == [subtrees[0]] + subtrees[1..];
    }
  }

  // ---------------------------------------------------------------- live identifiers

  function Count(ts: seq<Tracked>, r: nat): nat {
    if ts == [] then 0 else (if ts[0].root == r then 1 else 0) + Count(ts[1..], r)
  }

  /** The number of identifiers of a root that are waiting or being loaded. */
  function Live(s: State, r: nat): nat {
    Count(s.backlog, r) + (if s.next.Some? && s.next.value.root == r then 1 else 0) + Count(s.loading, r)
  }

  ghost predicate Rooted(ts: seq<Tracked>, n: nat) {
    forall i :: 0 <= i < |ts| ==> ts[i].root < n
  }

  /** The counters tell the live identifiers of every root; progress is reported when they reach zero. */
  ghost predicate Counted(s: State, n: nat) {
    && |s.rootCounter| == |s.reports| == n
    && s.outstanding == |s.loading|
    && Rooted(s.backlog, n) && Rooted(s.loading, n) && (s.next.Some? ==> s.next.value.root < n)
    && forall r :: 0 <= r < n ==>
         s.rootCounter[r] == Live(s, r) && s.reports[r] == if s.rootCounter[r] == 0 then 1 else 0
  }

  lemma {:induction false} CountConcat(a: seq<Tracked>, b: seq<Tracked>, r: nat)
    ensures Count(a + b, r) == Count(a, r) + Count(b, r)
  {
    if a == [] {
      assert a + b == b;
    } else {
      CountConcat(a[1..], b, r);
      assert a + b == [a[0]] + (a[1..] + b);
    }
  }

  lemma {:induction false} CountChildren(subtrees: seq<Id>, root: nat, r: nat)
    ensures Count(Children(subtrees, root), r) == if r == root then |Children(subtrees, root)| else 0
    ensures Rooted(Children(subtrees, root), root + 1)
  {
    if subtrees != [] {
      CountChildren(subtrees[1..], root, r);
      CountConcat(Children(subtrees[1..], root), [Tracked(subtrees[0], root)], r);
    }
  }

  lemma CountRemoved(ts: seq<Tracked>, k: nat, r: nat)
    requires k < |ts|
    ensures Count(ts, r) == Count(ts[..k] + ts[k + 1..], r) + if ts[k].root == r then 1 else 0
  {
    assert ts == ts[..k] + ([ts[k]] + ts[k + 1..]);
    CountConcat(ts[..k], [ts[k]] + ts[k + 1..], r);
    CountConcat([ts[k]], ts[k + 1..], r);
    CountConcat(ts[..k], ts[k + 1..], r);
  }

  lemma {:induction false} CountEmpty(ts: seq<Tracked>, from: nat, r: nat)
    requires forall i :: 0 <= i < |ts| ==> ts[i].root == from + i
    ensures Count(ts, r) == if from <= r < from + |ts| then 1 else 0
  {
    if ts != [] {
      CountEmpty(ts[1..], from + 1, r);
    }
  }

  lemma StartCounted(roots: seq<Id>, blobs: set<BlobHandle>)
    ensures Counted(Start(roots, blobs), |roots|)
  {
    var s := Start(roots, blobs);
    forall r: nat | r < |roots| ensures Live(s, r) == 1 {
      CountEmpty(s.backlog, 0, r);
    }
  }

  lemma PopCounted(s: State, n: nat)
    requires Counted(s, n) && s.next.None? && s.backlog != []
    ensures Counted(Pop(s), n)
  {
    hide Count;
    var s1, k := Pop(s), |s.backlog| - 1;
    assert s.backlog[..k] + s.backlog[k + 1..] == s.backlog[..k];
    forall r: nat | r < n ensures Live(s, r) == Live(s1, r) + if s1.next.None? && s.backlog[k].root == r then 1 else 0 {
      CountRemoved(s.backlog, k, r);
    }
  }

  lemma SendCounted(s: State, n: nat)
    requires Counted(s, n) && s.next.Some?
    ensures Counted(Send(s), n)
  {
    forall r: nat | r < n ensures Live(s, r) == Live(Send(s), r) {
      CountConcat(s.loading, [s.next.value], r);
    }
  }

  lemma ReceiveCounted(g: Graph, s: State, k: nat, n: nat)
    requires Counted(s, n) && k < |s.loading| && s.loading[k].id in g
    ensures Counted(Receive(g, s, k), n)
  {
    hide Count;
    hide Children;
    var s1, t := Receive(g, s, k), s.loading[k];
    var more := Children(Subtrees(g[t.id].nodes), t.root);
    forall r: nat | r < n ensures Live(s1, r) == Live(s, r) + if t.root == r then |more| - 1 else 0 {
      CountRemoved(s.loading, k, r);
      CountConcat(s.backlog, more, r);
      CountChildren(Subtrees(g[t.id].nodes), t.root, r);
    }
    CountChildren(Subtrees(g[t.id].nodes), t.root, 0);
    CountRemoved(s.loading, k, t.root);
    assert Rooted(s1.backlog, n);
    assert Rooted(s1.loading, n);
  }

  // ---------------------------------------------------------------- nothing but what is wanted

  ghost predicate Found(g: Graph, roots: seq<Id>, id: Id) {
    id in g && Reachable(g, roots, id)
  }

  /** Everything on its way is reachable, and every handle was there at the start or is wanted. */
  ghost predicate Sound(g: Graph, roots: seq<Id>, start: set<BlobHandle>, s: State) {
    && (forall t :: t in s.backlog ==> Found(g, roots, t.id))
    && (forall t :: t in s.loading ==> Found(g, roots, t.id))
    && (s.next.Some? ==> Found(g, roots, s.next.value.id))
    && (s.out.Some? ==> Found(g, roots, s.out.value))
    && (s.busy.Some? ==> Found(g, roots, s.busy.value))
    && (forall h :: h in s.blobs ==> h in start || Wanted(g, roots, h))
  }

  lemma StartSound(g: Graph, roots: seq<Id>, start: set<BlobHandle>)
    requires AllLoad(g, roots)
    ensures Sound(g, roots, start, Start(roots, start))
  {
    hide Reachable;
    forall t | t in Start(roots, start).backlog ensures Found(g, roots, t.id) {
      RootReachable(g, roots, t.id);
    }
  }

  lemma PopSound(g: Graph, roots: seq<Id>, start: set<BlobHandle>, s: State)
    requires Sound(g, roots, start, s) && Counted(s, |roots|) && s.next.None? && s.backlog != []
    ensures Sound(g, roots, start, Pop(s))
  {
    hide Reachable;
    hide Live;
    assert s.backlog[|s.backlog| - 1] in s.backlog;
  }

  lemma ReceiveSound(g: Graph, roots: seq<Id>, start: set<BlobHandle>, s: State, k: nat)
    requires Sound(g, roots, start, s) && AllLoad(g, roots)
    requires k < |s.loading| && InRange(s, s.loading[k].root) && s.loading[k].id in g
    ensures Sound(g, roots, start, Receive(g, s, k))
  {
    hide Reachable;
    hide Children;
    var t := s.loading[k];
    assert t in s.loading;
    forall c | c in Children(Subtrees(g[t.id].nodes), t.root) ensures Found(g, roots, c.id) {
      ChildrenMeaning(Subtrees(g[t.id].nodes), t.root, c);
      assert Edge(g, t.id, c.id);
      EdgeReachable(g, roots, t.id, c.id);
    }
  }

  // ---------------------------------------------------------------- everything that is wanted

  /** A tree that is used already or waits in the backlog. */
  ghost predicate Seen(s: State, id: Id) {
    TreeHandle(id) in s.blobs || exists t :: t in s.backlog && t.id == id
  }

  ghost predicate InFlight(s: State, id: Id) {
    (s.next.Some? && s.next.value.id == id) || exists t :: t in s.loading && t.id == id
  }

  /** The subtrees of a loaded tree are seen, and its file blobs are used or about to be. */
  ghost predicate Expanded(g: Graph, s: State, id: Id) {
    id in g ==>
      && (forall c :: Edge(g, id, c) ==> Seen(s, c))
      && (ContentOf(g[id]) <= s.blobs || s.out == Some(id) || s.busy == Some(id))
  }

  ghost predicate Complete(g: Graph, roots: seq<Id>, start: set<BlobHandle>, s: State) {
    && start <= s.blobs
    && (forall id :: id in roots ==> Seen(s, id))
    && (forall id :: TreeHandle(id) in s.blobs && TreeHandle(id) !in start ==> InFlight(s, id) || Expanded(g, s, id))
  }

  lemma StartComplete(g: Graph, roots: seq<Id>, start: set<BlobHandle>)
    ensures Complete(g, roots, start, Start(roots, start))
  {
    var s := Start(roots, start);
    forall id | id in roots ensures Seen(s, id) {
      var i :| 0 <= i < |roots| && roots[i] == id;
      assert s.backlog[i] in s.backlog;
    }
  }

  /** A step that loses nothing seen and nothing used keeps what is expanded. */
  lemma ExpandedKept(g: Graph, s: State, s1: State, id: Id)
    requires Expanded(g, s, id) && s.blobs <= s1.blobs
    requires forall c :: Seen(s, c) ==> Seen(s1, c)
    requires id in g && (s.out == Some(id) || s.busy == Some(id)) ==>
               s1.out == Some(id) || s1.busy == Some(id) || ContentOf(g[id]) <= s1.blobs
    ensures Expanded(g, s1, id)
  {
    hide Seen;
    hide Edge;
  }

  lemma PopSeen(s: State, id: Id)
    requires s.next.None? && s.backlog != [] && InRange(s, s.backlog[|s.backlog| - 1].root) && Seen(s, id)
    ensures Seen(Pop(s), id)
  {
    if TreeHandle(id) !in Pop(s).blobs {
      var t :| t in s.backlog && t.id == id;
      assert t in Pop(s).backlog;
    }
  }

  lemma PopComplete(g: Graph, roots: seq<Id>, start: set<BlobHandle>, s: State, n: nat)
    requires Complete(g, roots, start, s) && Counted(s, n) && s.next.None? && s.backlog != []
    ensures Complete(g, roots, start, Pop(s))
  {
    hide Seen;
    hide Expanded;
    hide Live;
    var s1 := Pop(s);
    forall id | Seen(s, id) ensures Seen(s1, id) {
      PopSeen(s, id);
    }
    forall id | TreeHandle(id) in s1.blobs && TreeHandle(id) !in start
      ensures InFlight(s1, id) || Expanded(g, s1, id)
    {
      if !InFlight(s1, id) {
        ExpandedKept(g, s, s1, id);
      }
    }
  }

  lemma SendComplete(g: Graph, roots: seq<Id>, start: set<BlobHandle>, s: State)
    requires Complete(g, roots, start, s) && s.next.Some?
    ensures Complete(g, roots, start, Send(s))
  {
    hide Expanded;
    var s1 := Send(s);
    forall id | TreeHandle(id) in s1.blobs && TreeHandle(id) !in start
      ensures InFlight(s1, id) || Expanded(g, s1, id)
    {
      if InFlight(s, id) {
        assert s.next.value in s1.loading;
        assert forall t :: t in s.loading ==> t in s1.loading;
      } else {
        ExpandedKept(g, s, s1, id);
      }
    }
  }

  lemma ReceiveComplete(g: Graph, roots: seq<Id>, start: set<BlobHandle>, s: State, k: nat)
    requires Complete(g, roots, start, s) && s.out.None?
    requires k < |s.loading| && InRange(s, s.loading[k].root) && s.loading[k].id in g
    ensures Complete(g, roots, start, Receive(g, s, k))
  {
    hide Expanded;
    hide Children;
    var s1, t := Receive(g, s, k), s.loading[k];
    assert forall t :: t in s.backlog ==> t in s1.backlog;
    assert Expanded(g, s1, t.id) by {
      ReceiveExpands(g, s, k);
    }
    forall id | TreeHandle(id) in s1.blobs && TreeHandle(id) !in start
      ensures InFlight(s1, id) || Expanded(g, s1, id)
    {
      if InFlight(s, id) {
        assert forall u :: u in s.loading ==> u == t || u in s1.loading;
      } else {
        ExpandedKept(g, s, s1, id);
      }
    }
  }

  lemma ReceiveExpands(g: Graph, s: State, k: nat)
    requires k < |s.loading| && InRange(s, s.loading[k].root) && s.loading[k].id in g
    ensures Expanded(g, Receive(g, s, k), s.loading[k].id)
  {
    hide Children;
    var s1, t := Receive(g, s, k), s.loading[k];
    forall c | Edge(g, t.id, c) ensures Seen(s1, c) {
      ChildrenMeaning(Subtrees(g[t.id].nodes), t.root, Tracked(c, t.root));
      assert Tracked(c, t.root) in s1.backlog;
    }
  }

  lemma DeliverComplete(g: Graph, roots: seq<Id>, start: set<BlobHandle>, s: State)
    requires Complete(g, roots, start, s) && s.out.Some? && s.busy.None?
    ensures Complete(g, roots, start, Deliver(s))
  {
    hide Expanded;
    forall id | Expanded(g, s, id) ensures Expanded(g, Deliver(s), id) {
      ExpandedKept(g, s, Deliver(s), id);
    }
  }

  lemma ConsumeComplete(g: Graph, roots: seq<Id>, start: set<BlobHandle>, s: State)
    requires Complete(g, roots, start, s) && s.busy.Some? && s.busy.value in g
    ensures Complete(g, roots, start, Consume(g, s))
  {
    hide Expanded;
    forall id | Expanded(g, s, id) ensures Expanded(g, Consume(g, s), id) {
      ExpandedKept(g, s, Consume(g, s), id);
    }
  }

  // ---------------------------------------------------------------- every new tree is loaded once

  ghost predicate IsNew(start: set<BlobHandle>, blobs: set<BlobHandle>, id: Id) {
    TreeHandle(id) in blobs && TreeHandle(id) !in start
  }

  function Single(id: Option<Tracked>): seq<Id> {
    if id.Some? then [id.value.id] else []
  }

  /** What was handed out, or is about to be, is what is new, each once. */
  ghost predicate LoadedOnce(start: set<BlobHandle>, s: State) {
    forall id :: multiset(s.loads + Single(s.next))[id] == if IsNew(start, s.blobs, id) then 1 else 0
  }

  lemma PopLoadedOnce(start: set<BlobHandle>, s: State, n: nat)
    requires LoadedOnce(start, s) && Counted(s, n) && start <= s.blobs && s.next.None? && s.backlog != []
    ensures LoadedOnce(start, Pop(s))
  {
    hide Live;
    var s1 := Pop(s);
    assert s.loads + Single(s.next) == s.loads;
    if s1.next.Some? {
      assert multiset(s1.loads + Single(s1.next)) == multiset(s.loads) + multiset{s1.next.value.id};
    }
  }

  // ---------------------------------------------------------------- termination

  /** The trees that are not used yet. */
  ghost function Unused(g: Graph, blobs: set<BlobHandle>): set<Id> {
    set id | id in g && TreeHandle(id) !in blobs
  }

  /** Every step uses a new tree, or loads one, or shortens the backlog, or passes a tree on. */
  ghost predicate Progress(g: Graph, s: State, s1: State) {
    || Unused(g, s1.blobs) < Unused(g, s.blobs)
    || (Unused(g, s1.blobs) == Unused(g, s.blobs) && ToLoad(s1) < ToLoad(s))
    || (Unused(g, s1.blobs) == Unused(g, s.blobs) && ToLoad(s1) == ToLoad(s) && |s1.backlog| < |s.backlog|)
    || (Unused(g, s1.blobs) == Unused(g, s.blobs) && ToLoad(s1) == ToLoad(s) && |s1.backlog| == |s.backlog|
        && ToPass(s1) < ToPass(s))
  }

  ghost function ToLoad(s: State): nat {
    |s.loading| + if s.next.Some? then 2 else 0
  }

  ghost function ToPass(s: State): nat {
    (if s.out.Some? then 2 else 0) + (if s.busy.Some? then 1 else 0)
  }

  // ---------------------------------------------------------------- every run

  ghost predicate Inv(g: Graph, roots: seq<Id>, start: set<BlobHandle>, s: State) {
    Counted(s, |roots|) && Sound(g, roots, start, s) && Complete(g, roots, start, s) && LoadedOnce(start, s)
  }

  lemma StartInv(g: Graph, roots: seq<Id>, start: set<BlobHandle>)
    requires AllLoad(g, roots)
    ensures Inv(g, roots, start, Start(roots, start))
  {
    hide Sound;
    hide Complete;
    hide Counted;
    StartCounted(roots, start);
    StartSound(g, roots, start);
    StartComplete(g, roots, start);
  }

  lemma PopInv(g: Graph, roots: seq<Id>, start: set<BlobHandle>, s: State)
    requires Inv(g, roots, start, s) && s.next.None? && s.backlog != []
    ensures InRange(s, s.backlog[|s.backlog| - 1].root)
    ensures Inv(g, roots, start, Pop(s)) && Progress(g, s, Pop(s))
  {
    hide LoadedOnce;
    hide Live;
    hide Seen;
    hide Expanded;
    hide Reachable;
    PopCounted(s, |roots|);
    PopSound(g, roots, start, s);
    PopComplete(g, roots, start, s, |roots|);
    PopLoadedOnce(start, s, |roots|);
    PopProgress(g, s);
  }

  lemma PopProgress(g: Graph, s: State)
    requires s.next.None? && s.backlog != [] && InRange(s, s.backlog[|s.backlog| - 1].root)
    requires s.backlog[|s.backlog| - 1].id in g
    ensures Progress(g, s, Pop(s))
  {
    var s1, id := Pop(s), s.backlog[|s.backlog| - 1].id;
    if s1.next.Some? {
      assert id in Unused(g, s.blobs) && id !in Unused(g, s1.blobs);
    }
  }

  lemma SendInv(g: Graph, roots: seq<Id>, start: set<BlobHandle>, s: State)
    requires Inv(g, roots, start, s) && s.next.Some?
    ensures Inv(g, roots, start, Send(s)) && Progress(g, s, Send(s))
  {
    hide Complete;
    hide Counted;
    hide Reachable;
    SendCounted(s, |roots|);
    SendComplete(g, roots, start, s);
    assert Send(s).loads + Single(Send(s).next) == s.loads + Single(s.next);
  }

  lemma ReceiveInv(g: Graph, roots: seq<Id>, start: set<BlobHandle>, s: State, k: nat)
    requires Inv(g, roots, start, s) && AllLoad(g, roots) && s.out.None? && k < |s.loading|
    ensures s.loading[k].id in g && InRange(s, s.loading[k].root)
    ensures Inv(g, roots, start, Receive(g, s, k)) && Progress(g, s, Receive(g, s, k))
  {
    hide LoadedOnce;
    hide Live;
    hide Complete;
    hide Children;
    assert s.loading[k] in s.loading;
    ReceiveCounted(g, s, k, |roots|);
    ReceiveSound(g, roots, start, s, k);
    ReceiveComplete(g, roots, start, s, k);
    var s1 := Receive(g, s, k);
    assert LoadedOnce(start, s1) by {
      SameLoads(start, s, s1);
    }
  }

  lemma SameLoads(start: set<BlobHandle>, s: State, s1: State)
    requires LoadedOnce(start, s) && s1.loads == s.loads && s1.next == s.next
    requires forall id :: TreeHandle(id) in s1.blobs <==> TreeHandle(id) in s.blobs
    ensures LoadedOnce(start, s1)
  {
  }

  lemma DeliverInv(g: Graph, roots: seq<Id>, start: set<BlobHandle>, s: State)
    requires Inv(g, roots, start, s) && s.out.Some? && s.busy.None?
    ensures Inv(g, roots, start, Deliver(s)) && Progress(g, s, Deliver(s))
  {
    hide Complete;
    hide Reachable;
    hide Count;
    DeliverComplete(g, roots, start, s);
    assert forall r :: Live(Deliver(s), r) == Live(s, r);
  }

  lemma ConsumeInv(g: Graph, roots: seq<Id>, start: set<BlobHandle>, s: State)
    requires Inv(g, roots, start, s) && s.busy.Some?
    ensures s.busy.value in g
    ensures Inv(g, roots, start, Consume(g, s)) && Progress(g, s, Consume(g, s))
  {
    hide Complete;
    hide LoadedOnce;
    hide Reachable;
    hide Count;
    ConsumeComplete(g, roots, start, s);
    var s1 := Consume(g, s);
    SameLoads(start, s, s1);
    assert forall r :: Live(s1, r) == Live(s, r);
    assert Unused(g, s1.blobs) == Unused(g, s.blobs);
  }

  predicate Returned(s: State) {
    s.backlog == [] && s.next.None? && s.outstanding == 0 && s.out.None?
  }

  /** At the end the used blobs are closed under references, so whatever is reachable is used. */
  lemma EndComplete(g: Graph, roots: seq<Id>, start: set<BlobHandle>, s: State, h: BlobHandle)
    requires Complete(g, roots, start, s) && Closed(g, start) && Wanted(g, roots, h)
    requires s.backlog == [] && s.next.None? && s.loading == [] && s.out.None? && s.busy.None?
    ensures h in s.blobs
  {
    hide Reachable;
    forall a, b | TreeHandle(a) in s.blobs && Edge(g, a, b) ensures TreeHandle(b) in s.blobs {
      assert TreeHandle(a) !in start ==> Expanded(g, s, a) && Seen(s, b);
    }
    forall id | Reachable(g, roots, id) ensures TreeHandle(id) in s.blobs {
      ReachableUsed(g, roots, s.blobs, id);
    }
    if h.tpe == DataBlob {
      var t :| t in g && Reachable(g, roots, t) && h in ContentOf(g[t]);
      assert TreeHandle(t) !in start ==> Expanded(g, s, t);
    } else {
      assert h == TreeHandle(h.id);
    }
  }

  lemma ReachableUsed(g: Graph, roots: seq<Id>, found: set<BlobHandle>, id: Id)
    requires Reachable(g, roots, id)
    requires forall id :: id in roots ==> TreeHandle(id) in found
    requires forall a, b :: TreeHandle(a) in found && Edge(g, a, b) ==> TreeHandle(b) in found
    ensures TreeHandle(id) in found
  {
    var p :| IsPath(g, roots, p) && p[|p| - 1] == id;
    ClosedContains(g, roots, found, p, |p| - 1);
  }

  ghost predicate ExactlyWanted(g: Graph, roots: seq<Id>, start: set<BlobHandle>, blobs: set<BlobHandle>) {
    forall h :: h in blobs <==> h in start || Wanted(g, roots, h)
  }

  ghost predicate EachNewOnce(start: set<BlobHandle>, s: State) {
    forall id :: multiset(s.loads)[id] == if IsNew(start, s.blobs, id) then 1 else 0
  }

  lemma EndInv(g: Graph, roots: seq<Id>, start: set<BlobHandle>, s: State)
    requires Inv(g, roots, start, s) && Closed(g, start) && Returned(s) && s.busy.None?
    ensures ExactlyWanted(g, roots, start, s.blobs)
    ensures EachNewOnce(start, s)
    ensures |s.reports| == |roots| && forall r :: 0 <= r < |roots| ==> s.reports[r] == 1
  {
    hide Wanted;
    hide Closed;
    assert s.loads + Single(s.next) == s.loads;
    forall h | h in start || Wanted(g, roots, h) ensures h in s.blobs {
      if h !in start {
        EndComplete(g, roots, start, s, h);
      }
    }
    forall r | 0 <= r < |roots| ensures s.reports[r] == 1 {
      assert Live(s, r) == 0;
    }
  }

  /**
   The whole traversal.  The choices are free wherever the loop waits for several
   channels, a loader is taken to be free whenever none is at work, and the
   consumer moves in between.
   */
  method FindUsedBlobs(g: Graph, roots: seq<Id>, start: set<BlobHandle>) returns (s: State)
    requires AllLoad(g, roots) && Closed(g, start)
    ensures ExactlyWanted(g, roots, start, s.blobs)
    ensures EachNewOnce(start, s)
    ensures |s.reports| == |roots| && forall r :: 0 <= r < |roots| ==> s.reports[r] == 1
  {
    hide Sound;
    hide Complete;
    hide LoadedOnce;
    hide Live;
    hide AllLoad;
    hide Closed;
    hide Pop;
    hide Receive;
    hide ContentOf;
    hide Unused;
    hide ExactlyWanted;
    hide EachNewOnce;
    StartInv(g, roots, start);
    s := Start(roots, start);
    while !Returned(s)
      invariant Inv(g, roots, start, s)
      decreases Unused(g, s.blobs), ToLoad(s), |s.backlog|, ToPass(s)
    {
      var ready: bool := *;
      if s.loading == [] {
        ready := true;
      }
      if {
        case s.busy.Some? =>
          ConsumeInv(g, roots, start, s);
          s := Consume(g, s);
        case s.next.None? && s.backlog != [] =>
          PopInv(g, roots, start, s);
          s := Pop(s);
        case s.next.Some? && ready =>
          SendInv(g, roots, start, s);
          s := Send(s);
        case (s.next.Some? || s.backlog == []) && s.out.None? && s.loading != [] =>
          var k :| 0 <= k < |s.loading|;
          ReceiveInv(g, roots, start, s, k);
          s := Receive(g, s, k);
        case (s.next.Some? || s.backlog == []) && s.out.Some? && s.busy.None? =>
          DeliverInv(g, roots, start, s);
          s := Deliver(s);
      }
    }
    if s.busy.Some? {
      ConsumeInv(g, roots, start, s);
      s := Consume(g, s);
    }
    EndInv(g, roots, start, s);
  }
}
