/**
 Path patterns with the recursive wildcard `**`: matching a path given as its
 components, deciding whether anything below a directory can match, and ordered
 pattern lists with negation.
 */
module Filters {

  /** One component of a pattern; the empty pattern stands for `**`. */
  datatype Part = Part(pattern: string, isSimple: bool)

  datatype Pattern = Pattern(parts: seq<Part>, isNegated: bool)

  /** The outcome of a match; a malformed component is an error. */
  datatype Outcome = Ok(matched: bool) | BadPattern {
    /** Anything but a clean "no". */
    predicate May() {
      BadPattern? || matched
    }
  }

  datatype GlobResult = Answer(matched: bool) | Malformed

  /** How a component that is not simple is compared with a path component. */
  type Glob = (string, string) -> GlobResult

  const STAR: Part := Part("*", false)
  const ROOT: string := "/"

  predicate IsDouble(p: Part) {
    p.pattern == ""
  }

  function PartMatch(glob: Glob, p: Part, s: string): GlobResult {
    if p.isSimple then Answer(p.pattern == s) else glob(p.pattern, s)
  }

  predicate Fits(glob: Glob, p: Part, s: string) {
    PartMatch(glob, p, s) == Answer(true)
  }

  // ---------------------------------------------------------------- patterns without `**`

  /** Compares the first n parts with the components from `offset` on, the last one first. */
  function MatchAt(glob: Glob, parts: seq<Part>, strs: seq<string>, offset: nat, n: nat): Outcome
    requires n <= |parts| && offset + n <= |strs|
  {
    if n == 0 then Ok(true)
    else
      match PartMatch(glob, parts[n - 1], strs[offset + n - 1])
      case Malformed => BadPattern
      case Answer(ok) => if ok then MatchAt(glob, parts, strs, offset, n - 1) else Ok(false)
  }

  /** Tries the offsets from `offset` down to `min`. */
  function MatchDown(glob: Glob, parts: seq<Part>, strs: seq<string>, offset: int, min: nat): Outcome
    requires offset + |parts| <= |strs|
    decreases offset
  {
    if offset < min then Ok(false)
    else
      match MatchAt(glob, parts, strs, offset, |parts|)
      case BadPattern => BadPattern
      case Ok(true) => Ok(true)
      case Ok(false) => MatchDown(glob, parts, strs, offset - 1, min)
  }

  function MinOffset(parts: seq<Part>, strs: seq<string>): nat
    requires parts != [] && strs != []
  {
    if parts[0].pattern != ROOT && strs[0] == ROOT then 1 else 0
  }

  function MaxOffset(parts: seq<Part>, strs: seq<string>): nat
    requires parts != [] && |parts| <= |strs|
  {
    if parts[0].pattern == ROOT then 0 else |strs| - |parts|
  }

  function StaticMatch(glob: Glob, parts: seq<Part>, strs: seq<string>): Outcome {
    if parts == [] then Ok(strs == [])
    else if |parts| > |strs| then Ok(false)
    else MatchDown(glob, parts, strs, MaxOffset(parts, strs), MinOffset(parts, strs))
  }

  // ---------------------------------------------------------------- patterns with `**`

  function FirstDouble(parts: seq<Part>): (pos: nat)
    ensures pos <= |parts|
    ensures forall j :: 0 <= j < pos ==> !IsDouble(parts[j])
    ensures pos < |parts| ==> IsDouble(parts[pos])
  {
    if parts == [] || IsDouble(parts[0]) then 0 else 1 + FirstDouble(parts[1..])
  }

  function Doubles(parts: seq<Part>): nat {
    if parts == [] then 0 else (if IsDouble(parts[0]) then 1 else 0) + Doubles(parts[1..])
  }

  function Stars(n: nat): (s: seq<Part>)
    ensures |s| == n && forall j :: 0 <= j < n ==> s[j] == STAR
  {
    seq(n, _ => STAR)
  }

  /** The pattern with its first `**` replaced by n wildcards. */
  function Expand(parts: seq<Part>, n: nat): (e: seq<Part>)
    requires FirstDouble(parts) < |parts|
    ensures |e| == |parts| - 1 + n
  {
    var pos := FirstDouble(parts);
    parts[..pos] + Stars(n) + parts[pos + 1..]
  }

  lemma {:induction false} DoublesConcat(a: seq<Part>, b: seq<Part>)
    ensures Doubles(a + b) == Doubles(a) + Doubles(b)
  {
    if a == [] {
      assert a + b == b;
    } else {
      DoublesConcat(a[1..], b);
      assert (a + b)[1..] == a[1..] + b;
    }
  }

  lemma {:induction false} NoDoubles(parts: seq<Part>)
    requires forall j :: 0 <= j < |parts| ==> !IsDouble(parts[j])
    ensures Doubles(parts) == 0
  {
    if parts != [] { NoDoubles(parts[1..]); }
  }

  /** Expanding removes one `**`. */
  lemma ExpandDoubles(parts: seq<Part>, n: nat)
    requires FirstDouble(parts) < |parts|
    ensures Doubles(Expand(parts, n)) == Doubles(parts) - 1
  {
    hide Doubles;
    hide FirstDouble;
    hide Stars;
    var pos := FirstDouble(parts);
    var a, z := parts[..pos], parts[pos + 1..];
    NoDoubles(Stars(n));
    OneDouble(parts[pos]);
    DoublesAround(a, [parts[pos]], z);
    DoublesAround(a, Stars(n), z);
    assert parts == a + [parts[pos]] + z;
  }

  lemma DoublesAround(a: seq<Part>, m: seq<Part>, z: seq<Part>)
    ensures Doubles(a + m + z) == Doubles(a) + Doubles(m) + Doubles(z)
  {
    hide Doubles;
    DoublesConcat(a + m, z);
    DoublesConcat(a, m);
  }

  lemma OneDouble(p: Part)
    requires IsDouble(p)
    ensures Doubles([p]) == 1
  {
    assert [p][1..] == [];
  }

  /** Matching a pattern: a `**` is expanded step by step, from nothing to as long as the rest still fits. */
  function Matching(glob: Glob, parts: seq<Part>, strs: seq<string>): Outcome
    decreases Doubles(parts), 1, 0
  {
    if FirstDouble(parts) < |parts| then Search(glob, parts, strs, 0)
    else StaticMatch(glob, parts, strs)
  }

  function Search(glob: Glob, parts: seq<Part>, strs: seq<string>, i: nat): Outcome
    requires FirstDouble(parts) < |parts|
    decreases Doubles(parts), 0, |strs| + 2 - i
  {
    if i > |strs| - |parts| + 1 then Ok(false)
    else
      ExpandDoubles(parts, i);
      match Matching(glob, Expand(parts, i), strs)
      case BadPattern => BadPattern
      case Ok(true) => Ok(true)
      case Ok(false) => Search(glob, parts, strs, i + 1)
  }

  // ---------------------------------------------------------------- what a pattern denotes

  /** The parts fit the components from `offset` on. */
  ghost predicate FitsAt(glob: Glob, parts: seq<Part>, strs: seq<string>, offset: int) {
    0 <= offset && offset + |parts| <= |strs| &&
    forall j :: 0 <= j < |parts| ==> Fits(glob, parts[j], strs[offset + j])
  }

  /** Rooted patterns match from the root; others anywhere, but not the root marker itself. */
  ghost predicate AllowedOffset(parts: seq<Part>, strs: seq<string>, offset: int) {
    parts != [] && strs != [] &&
    (if parts[0].pattern == ROOT then offset == 0 else strs[0] == ROOT ==> offset >= 1)
  }

  /** Some contiguous stretch of the path fits the pattern. */
  ghost predicate StaticDenotes(glob: Glob, parts: seq<Part>, strs: seq<string>) {
    if parts == [] then strs == []
    else exists offset :: FitsAt(glob, parts, strs, offset) && AllowedOffset(parts, strs, offset)
  }

  ghost predicate AllStars(s: seq<Part>) {
    forall j :: 0 <= j < |s| ==> s[j] == STAR
  }

  /** `e` is the pattern with every `**` replaced by zero or more wildcards. */
  ghost predicate Expands(parts: seq<Part>, e: seq<Part>) {
    if parts == [] then e == []
    else if IsDouble(parts[0]) then
      exists n :: 0 <= n <= |e| && AllStars(e[..n]) && Expands(parts[1..], e[n..])
    else e != [] && e[0] == parts[0] && Expands(parts[1..], e[1..])
  }

  /** The path matches some expansion of the pattern. */
  ghost predicate Denotes(glob: Glob, parts: seq<Part>, strs: seq<string>) {
    exists e :: Expands(parts, e) && StaticDenotes(glob, e, strs)
  }

  // ---------------------------------------------------------------- static patterns, exactly

  lemma {:induction false} MatchAtMeaning(glob: Glob, parts: seq<Part>, strs: seq<string>, offset: nat, n: nat)
    requires n <= |parts| && offset + n <= |strs|
    ensures MatchAt(glob, parts, strs, offset, n) == Ok(true) <==>
            forall j :: 0 <= j < n ==> Fits(glob, parts[j], strs[offset + j])
  {
    if n > 0 {
      MatchAtMeaning(glob, parts, strs, offset, n - 1);
    }
  }

  lemma {:induction false} MatchDownMeaning(glob: Glob, parts: seq<Part>, strs: seq<string>, offset: int, min: nat)
    requires offset + |parts| <= |strs|
    ensures MatchDown(glob, parts, strs, offset, min) == Ok(true) ==>
            exists o :: min <= o <= offset && FitsAt(glob, parts, strs, o)
    ensures (exists o :: min <= o <= offset && FitsAt(glob, parts, strs, o)) ==>
            MatchDown(glob, parts, strs, offset, min).May()
    decreases offset
  {
    if offset >= min {
      MatchAtMeaning(glob, parts, strs, offset, |parts|);
      if MatchAt(glob, parts, strs, offset, |parts|) == Ok(true) {
        assert FitsAt(glob, parts, strs, offset);
      }
      MatchDownMeaning(glob, parts, strs, offset - 1, min);
    }
  }

  /** A match is a fit, and where there is a fit the answer is not "no". */
  lemma StaticMeaning(glob: Glob, parts: seq<Part>, strs: seq<string>)
    ensures StaticMatch(glob, parts, strs) == Ok(true) ==> StaticDenotes(glob, parts, strs)
    ensures StaticDenotes(glob, parts, strs) ==> StaticMatch(glob, parts, strs).May()
  {
    if parts != [] && |parts| <= |strs| {
      var max, min := MaxOffset(parts, strs), MinOffset(parts, strs);
      MatchDownMeaning(glob, parts, strs, max, min);
      if StaticMatch(glob, parts, strs) == Ok(true) {
        var o :| min <= o <= max && FitsAt(glob, parts, strs, o);
        assert AllowedOffset(parts, strs, o);
      }
      if StaticDenotes(glob, parts, strs) {
        var o :| FitsAt(glob, parts, strs, o) && AllowedOffset(parts, strs, o);
        assert min <= o <= max;
      }
    }
  }

  // ---------------------------------------------------------------- searching

  lemma {:induction false} SearchTrue(glob: Glob, parts: seq<Part>, strs: seq<string>, i: nat) returns (n: nat)
    requires FirstDouble(parts) < |parts| && Search(glob, parts, strs, i) == Ok(true)
    ensures i <= n <= |strs| - |parts| + 1 && Matching(glob, Expand(parts, n), strs) == Ok(true)
    decreases |strs| + 2 - i
  {
    if Matching(glob, Expand(parts, i), strs) == Ok(true) {
      n := i;
    } else {
      n := SearchTrue(glob, parts, strs, i + 1);
    }
  }

  lemma {:induction false} SearchMay(glob: Glob, parts: seq<Part>, strs: seq<string>, i: nat, n: nat)
    requires FirstDouble(parts) < |parts|
    requires i <= n <= |strs| - |parts| + 1 && Matching(glob, Expand(parts, n), strs).May()
    ensures Search(glob, parts, strs, i).May()
    decreases n - i
  {
    if i < n {
      SearchMay(glob, parts, strs, i + 1, n);
    }
  }

  // ---------------------------------------------------------------- soundness

  lemma {:induction false} ExpandsSelf(parts: seq<Part>)
    requires FirstDouble(parts) == |parts|
    ensures Expands(parts, parts)
  {
    if parts != [] { ExpandsSelf(parts[1..]); }
  }

  /** Expanding the first `**` and then the others expands all. */
  lemma {:induction false} ExpandsFirst(parts: seq<Part>, n: nat, e: seq<Part>)
    requires FirstDouble(parts) < |parts| && Expands(Expand(parts, n), e)
    ensures Expands(parts, e)
  {
    if IsDouble(parts[0]) {
      assert parts[..0] == [] && Expand(parts, n) == Stars(n) + parts[1..];
      StarsExpand(n, parts[1..], e);
    } else {
      ExpandTail(parts, n);
      ExpandsFirst(parts[1..], n, e[1..]);
    }
  }

  lemma ExpandTail(parts: seq<Part>, n: nat)
    requires FirstDouble(parts) < |parts| && !IsDouble(parts[0])
    ensures FirstDouble(parts[1..]) < |parts[1..]|
    ensures Expand(parts, n) != [] && Expand(parts, n)[0] == parts[0] && Expand(parts, n)[1..] == Expand(parts[1..], n)
  {
    var pos := FirstDouble(parts);
    assert FirstDouble(parts[1..]) == pos - 1;
    assert parts[..pos][1..] == parts[1..][..pos - 1];
    assert parts[pos + 1..] == parts[1..][pos..];
  }

  /** Leading wildcards stay as they are. */
  lemma {:induction false} StarsExpand(n: nat, rest: seq<Part>, e: seq<Part>)
    requires Expands(Stars(n) + rest, e)
    ensures n <= |e| && AllStars(e[..n]) && Expands(rest, e[n..])
  {
    if n == 0 {
      assert Stars(0) + rest == rest && e[0..] == e;
    } else {
      assert (Stars(n) + rest)[0] == STAR;
      assert (Stars(n) + rest)[1..] == Stars(n - 1) + rest;
      StarsExpand(n - 1, rest, e[1..]);
      assert e[1..][n - 1..] == e[n..];
      assert forall j :: 1 <= j < n ==> e[j] == e[1..][..n - 1][j - 1];
    }
  }

  /** Soundness: what matches is denoted, however many `**` the pattern has. */
  lemma {:induction false} Soundness(glob: Glob, parts: seq<Part>, strs: seq<string>) returns (e: seq<Part>)
    requires Matching(glob, parts, strs) == Ok(true)
    ensures Expands(parts, e) && StaticDenotes(glob, e, strs)
    decreases Doubles(parts)
  {
    if FirstDouble(parts) == |parts| {
      ExpandsSelf(parts);
      StaticMeaning(glob, parts, strs);
      e := parts;
    } else {
      var n := SearchTrue(glob, parts, strs, 0);
      ExpandDoubles(parts, n);
      e := Soundness(glob, Expand(parts, n), strs);
      ExpandsFirst(parts, n, e);
    }
  }

  // ---------------------------------------------------------------- expansions by numbers

  /** The pattern without its `**` components. */
  function Static(parts: seq<Part>): (s: seq<Part>)
    ensures |s| + Doubles(parts) == |parts|
  {
    if parts == [] then []
    else if IsDouble(parts[0]) then Static(parts[1..])
    else [parts[0]] + Static(parts[1..])
  }

  function Sum(ns: seq<nat>): nat {
    if ns == [] then 0 else ns[0] + Sum(ns[1..])
  }

  /** The pattern with the k-th `**` replaced by ns[k] wildcards. */
  function Filled(parts: seq<Part>, ns: seq<nat>): (e: seq<Part>)
    requires |ns| == Doubles(parts)
    ensures |e| == |Static(parts)| + Sum(ns)
  {
    if parts == [] then []
    else if IsDouble(parts[0]) then Stars(ns[0]) + Filled(parts[1..], ns[1..])
    else [parts[0]] + Filled(parts[1..], ns)
  }

  lemma {:induction false} FilledExpands(parts: seq<Part>, ns: seq<nat>)
    requires |ns| == Doubles(parts)
    ensures Expands(parts, Filled(parts, ns))
  {
    if parts != [] {
      var e := Filled(parts, ns);
      if IsDouble(parts[0]) {
        FilledExpands(parts[1..], ns[1..]);
        assert e[..ns[0]] == Stars(ns[0]) && e[ns[0]..] == Filled(parts[1..], ns[1..]);
      } else {
        FilledExpands(parts[1..], ns);
        assert e[1..] == Filled(parts[1..], ns);
      }
    }
  }

  /** Every expansion is given by the numbers of wildcards. */
  lemma {:induction false} ExpandsFilled(parts: seq<Part>, e: seq<Part>) returns (ns: seq<nat>)
    requires Expands(parts, e)
    ensures |ns| == Doubles(parts) && e == Filled(parts, ns)
  {
    hide Stars;
    hide Filled;
    hide Doubles;
    if parts == [] {
      ns := [];
      FilledNothing();
    } else if IsDouble(parts[0]) {
      var n :| 0 <= n <= |e| && AllStars(e[..n]) && Expands(parts[1..], e[n..]);
      var rest := ExpandsFilled(parts[1..], e[n..]);
      ns := [n] + rest;
      FilledLeading(parts, n, rest);
      assert e[..n] == Stars(n) && e == e[..n] + e[n..];
    } else {
      ns := ExpandsFilled(parts[1..], e[1..]);
      FilledCons(parts[0], parts[1..], ns);
      assert e == [e[0]] + e[1..] && parts == [parts[0]] + parts[1..];
    }
  }

  lemma FilledNothing()
    ensures Doubles([]) == 0 && Filled([], []) == []
  {
  }

  lemma FilledLeading(parts: seq<Part>, n: nat, rest: seq<nat>)
    requires parts != [] && IsDouble(parts[0]) && |rest| == Doubles(parts[1..])
    ensures |rest| + 1 == Doubles(parts) && Filled(parts, [n] + rest) == Stars(n) + Filled(parts[1..], rest)
  {
    assert ([n] + rest)[1..] == rest;
  }

  lemma {:induction false} FilledPlain(parts: seq<Part>)
    requires FirstDouble(parts) == |parts|
    ensures Doubles(parts) == 0 && Filled(parts, []) == parts == Static(parts)
  {
    if parts != [] {
      FilledPlain(parts[1..]);
    }
  }

  lemma {:induction false} FilledStars(n: nat, rest: seq<Part>, ns: seq<nat>)
    requires |ns| == Doubles(rest)
    ensures Doubles(Stars(n) + rest) == |ns| && Filled(Stars(n) + rest, ns) == Stars(n) + Filled(rest, ns)
    ensures |Static(Stars(n) + rest)| == n + |Static(rest)|
  {
    hide Filled;
    hide Doubles;
    hide Static;
    if n == 0 {
      assert Stars(0) + rest == rest && Stars(0) + Filled(rest, ns) == Filled(rest, ns);
    } else {
      FilledStars(n - 1, rest, ns);
      assert Stars(n) == [STAR] + Stars(n - 1);
      assert Stars(n) + rest == [STAR] + (Stars(n - 1) + rest);
      FilledCons(STAR, Stars(n - 1) + rest, ns);
      assert Stars(n) + Filled(rest, ns) == [STAR] + (Stars(n - 1) + Filled(rest, ns));
    }
  }

  lemma FilledCons(p: Part, rest: seq<Part>, ns: seq<nat>)
    requires !IsDouble(p) && |ns| == Doubles(rest)
    ensures Doubles([p] + rest) == |ns| && Filled([p] + rest, ns) == [p] + Filled(rest, ns)
    ensures |Static([p] + rest)| == 1 + |Static(rest)|
  {
    assert ([p] + rest)[1..] == rest;
  }

  /** Filling in all numbers is expanding the first `**` and then filling in the others. */
  lemma {:induction false} FilledFirst(parts: seq<Part>, ns: seq<nat>)
    requires FirstDouble(parts) < |parts| && |ns| == Doubles(parts)
    ensures |ns| > 0 && Doubles(Expand(parts, ns[0])) == |ns| - 1
    ensures Filled(parts, ns) == Filled(Expand(parts, ns[0]), ns[1..])
    ensures |Static(Expand(parts, ns[0]))| == |Static(parts)| + ns[0]
  {
    hide Expand;
    if IsDouble(parts[0]) {
      ExpandLeading(parts, ns[0]);
      FilledStars(ns[0], parts[1..], ns[1..]);
    } else {
      FilledFirst(parts[1..], ns);
      ExpandTail(parts, ns[0]);
      var e := Expand(parts, ns[0]);
      assert e == [e[0]] + e[1..] && !IsDouble(e[0]);
    }
  }

  lemma ExpandLeading(parts: seq<Part>, n: nat)
    requires parts != [] && IsDouble(parts[0])
    ensures FirstDouble(parts) == 0 && Expand(parts, n) == Stars(n) + parts[1..]
  {
    assert parts[..0] == [];
  }

  // ---------------------------------------------------------------- what the matcher explores

  /**
   The search bound: while a `**` is expanded, every later one counts as one
   component, and the whole must not be longer than the path.
   */
  ghost predicate Room(parts: seq<Part>, ns: seq<nat>, limit: int) {
    && |ns| == Doubles(parts)
    && forall k :: 0 < k <= |ns| ==> |Static(parts)| + Sum(ns[..k]) + (|ns| - k) <= limit
  }

  /** Some expansion within the search bound fits the path. */
  ghost predicate Explored(glob: Glob, parts: seq<Part>, strs: seq<string>) {
    exists ns :: Room(parts, ns, |strs|) && StaticDenotes(glob, Filled(parts, ns), strs)
  }

  /** Without the bound, this is what the pattern denotes. */
  lemma DenotesFilled(glob: Glob, parts: seq<Part>, strs: seq<string>)
    ensures Denotes(glob, parts, strs) <==>
            exists ns :: |ns| == Doubles(parts) && StaticDenotes(glob, Filled(parts, ns), strs)
  {
    hide Filled;
    hide StaticDenotes;
    hide Expands;
    if Denotes(glob, parts, strs) {
      var e :| Expands(parts, e) && StaticDenotes(glob, e, strs);
      var ns := ExpandsFilled(parts, e);
    }
    forall ns | |ns| == Doubles(parts) && StaticDenotes(glob, Filled(parts, ns), strs)
      ensures Denotes(glob, parts, strs)
    {
      FilledExpands(parts, ns);
    }
  }

  /** The bound for all `**` is the bound for the first and then for the others. */
  lemma RoomFirst(parts: seq<Part>, ns: seq<nat>, limit: int)
    requires FirstDouble(parts) < |parts| && |ns| == Doubles(parts)
    ensures |ns| > 0
    ensures Room(parts, ns, limit) <==> ns[0] <= limit - |parts| + 1 && Room(Expand(parts, ns[0]), ns[1..], limit)
  {
    hide Expand;
    hide Doubles;
    hide Static;
    hide FirstDouble;
    FilledFirst(parts, ns);
    var e, rest := Expand(parts, ns[0]), ns[1..];
    assert Static(parts) == Static(parts) && |Static(parts)| + |ns| == |parts|;
    assert ns[..1] == [ns[0]] && ns[..1][1..] == [];
    forall k | 0 < k < |ns| ensures Sum(ns[..k + 1]) == ns[0] + Sum(rest[..k]) {
      assert ns[..k + 1][1..] == rest[..k];
    }
    if Room(parts, ns, limit) {
      assert |Static(parts)| + Sum(ns[..1]) + (|ns| - 1) <= limit;
      forall k | 0 < k <= |rest| ensures |Static(e)| + Sum(rest[..k]) + (|rest| - k) <= limit {
        assert |Static(parts)| + Sum(ns[..k + 1]) + (|ns| - (k + 1)) <= limit;
      }
    }
    if ns[0] <= limit - |parts| + 1 && Room(e, rest, limit) {
      forall k | 0 < k <= |ns| ensures |Static(parts)| + Sum(ns[..k]) + (|ns| - k) <= limit {
        if k > 1 {
          assert |Static(e)| + Sum(rest[..k - 1]) + (|rest| - (k - 1)) <= limit;
        }
      }
    }
  }

  /** What matches was explored. */
  lemma {:induction false} MatchExplored(glob: Glob, parts: seq<Part>, strs: seq<string>) returns (ns: seq<nat>)
    requires Matching(glob, parts, strs) == Ok(true)
    ensures Room(parts, ns, |strs|) && StaticDenotes(glob, Filled(parts, ns), strs)
    decreases Doubles(parts)
  {
    hide Expand;
    if FirstDouble(parts) == |parts| {
      ns := [];
      FilledPlain(parts);
      StaticMeaning(glob, parts, strs);
    } else {
      var n := SearchTrue(glob, parts, strs, 0);
      ExpandDoubles(parts, n);
      var rest := MatchExplored(glob, Expand(parts, n), strs);
      ns := [n] + rest;
      assert ns[1..] == rest;
      FilledFirst(parts, ns);
      RoomFirst(parts, ns, |strs|);
    }
  }

  /** Where an explored expansion fits, the answer is not "no". */
  lemma {:induction false} ExploredMay(glob: Glob, parts: seq<Part>, strs: seq<string>, ns: seq<nat>)
    requires Room(parts, ns, |strs|) && StaticDenotes(glob, Filled(parts, ns), strs)
    ensures Matching(glob, parts, strs).May()
    decreases Doubles(parts)
  {
    hide Expand;
    if FirstDouble(parts) == |parts| {
      FilledPlain(parts);
      StaticMeaning(glob, parts, strs);
    } else {
      FilledFirst(parts, ns);
      RoomFirst(parts, ns, |strs|);
      ExploredMay(glob, Expand(parts, ns[0]), strs, ns[1..]);
      SearchMay(glob, parts, strs, 0, ns[0]);
    }
  }

  // ---------------------------------------------------------------- exactness

  /** The component pattern is answered for every path component. */
  ghost predicate Answers(glob: Glob, p: Part) {
    forall s :: PartMatch(glob, p, s).Answer?
  }

  /** The components of the pattern are well formed, and so is the wildcard. */
  ghost predicate WellFormed(glob: Glob, parts: seq<Part>) {
    Answers(glob, STAR) && forall j :: 0 <= j < |parts| && !IsDouble(parts[j]) ==> Answers(glob, parts[j])
  }

  lemma ExpandWellFormed(glob: Glob, parts: seq<Part>, n: nat)
    requires WellFormed(glob, parts) && FirstDouble(parts) < |parts|
    ensures WellFormed(glob, Expand(parts, n))
  {
    hide Answers;
    hide FirstDouble;
    var e, pos := Expand(parts, n), FirstDouble(parts);
    forall j | 0 <= j < |e| && !IsDouble(e[j]) ensures Answers(glob, e[j]) {
      assert e[j] == if j < pos then parts[j] else if j < pos + n then STAR else parts[j - n + 1];
    }
  }

  lemma {:induction false} DownNoError(glob: Glob, parts: seq<Part>, strs: seq<string>, offset: int, min: nat)
    requires WellFormed(glob, parts) && FirstDouble(parts) == |parts| && offset + |parts| <= |strs|
    ensures MatchDown(glob, parts, strs, offset, min).Ok?
    decreases offset
  {
    if offset >= min {
      AtNoError(glob, parts, strs, offset, |parts|);
      DownNoError(glob, parts, strs, offset - 1, min);
    }
  }

  lemma {:induction false} AtNoError(glob: Glob, parts: seq<Part>, strs: seq<string>, offset: nat, n: nat)
    requires WellFormed(glob, parts) && FirstDouble(parts) == |parts| && n <= |parts| && offset + n <= |strs|
    ensures MatchAt(glob, parts, strs, offset, n).Ok?
  {
    if n > 0 {
      assert Answers(glob, parts[n - 1]);
      AtNoError(glob, parts, strs, offset, n - 1);
    }
  }

  lemma {:induction false} NoError(glob: Glob, parts: seq<Part>, strs: seq<string>)
    requires WellFormed(glob, parts)
    ensures Matching(glob, parts, strs).Ok?
    decreases Doubles(parts), 1, 0
  {
    hide WellFormed;
    if FirstDouble(parts) < |parts| {
      SearchNoError(glob, parts, strs, 0);
    } else if parts != [] && |parts| <= |strs| {
      DownNoError(glob, parts, strs, MaxOffset(parts, strs), MinOffset(parts, strs));
    }
  }

  lemma {:induction false} SearchNoError(glob: Glob, parts: seq<Part>, strs: seq<string>, i: nat)
    requires WellFormed(glob, parts) && FirstDouble(parts) < |parts|
    ensures Search(glob, parts, strs, i).Ok?
    decreases Doubles(parts), 0, |strs| + 2 - i
  {
    hide WellFormed;
    if i <= |strs| - |parts| + 1 {
      ExpandDoubles(parts, i);
      ExpandWellFormed(glob, parts, i);
      NoError(glob, Expand(parts, i), strs);
      SearchNoError(glob, parts, strs, i + 1);
    }
  }

  /** With well-formed components, matching decides whether some explored expansion fits, for any number of `**`. */
  lemma ExploresExactly(glob: Glob, parts: seq<Part>, strs: seq<string>)
    requires WellFormed(glob, parts)
    ensures Matching(glob, parts, strs) == Ok(Explored(glob, parts, strs))
  {
    hide Filled;
    hide StaticDenotes;
    hide WellFormed;
    NoError(glob, parts, strs);
    if Matching(glob, parts, strs) == Ok(true) {
      var ns := MatchExplored(glob, parts, strs);
    }
    if Explored(glob, parts, strs) {
      var ns :| Room(parts, ns, |strs|) && StaticDenotes(glob, Filled(parts, ns), strs);
      ExploredMay(glob, parts, strs, ns);
    }
  }

  lemma StaticFits(glob: Glob, parts: seq<Part>, strs: seq<string>)
    requires StaticDenotes(glob, parts, strs)
    ensures |parts| <= |strs|
  {
  }

  lemma OneRoom(parts: seq<Part>, ns: seq<nat>, limit: int)
    requires |ns| == Doubles(parts) <= 1 && |Filled(parts, ns)| <= limit
    ensures Room(parts, ns, limit)
  {
    hide Static;
    hide Filled;
    hide Doubles;
    assert ns[..|ns|] == ns;
  }

  /** With at most one `**` the bound leaves nothing out: whatever fits is not answered with "no". */
  lemma Completeness(glob: Glob, parts: seq<Part>, strs: seq<string>)
    requires Doubles(parts) <= 1 && Denotes(glob, parts, strs)
    ensures Explored(glob, parts, strs) && Matching(glob, parts, strs).May()
  {
    hide Static;
    hide Filled;
    hide StaticDenotes;
    hide Denotes;
    hide Doubles;
    hide Matching;
    DenotesFilled(glob, parts, strs);
    var ns :| |ns| == Doubles(parts) && StaticDenotes(glob, Filled(parts, ns), strs);
    StaticFits(glob, Filled(parts, ns), strs);
    OneRoom(parts, ns, |strs|);
    ExploredMay(glob, parts, strs, ns);
  }

  /** With well-formed components and at most one `**`, matching decides what the pattern denotes. */
  lemma MatchesExactly(glob: Glob, parts: seq<Part>, strs: seq<string>)
    requires WellFormed(glob, parts) && Doubles(parts) <= 1
    ensures Matching(glob, parts, strs) == Ok(Denotes(glob, parts, strs))
  {
    NoError(glob, parts, strs);
    if Denotes(glob, parts, strs) {
      Completeness(glob, parts, strs);
    }
    if Matching(glob, parts, strs) == Ok(true) {
      var e := Soundness(glob, parts, strs);
    }
  }

  // ---------------------------------------------------------------- where completeness ends

  lemma {:induction false} StaticExpands(parts: seq<Part>)
    ensures Expands(parts, Static(parts))
  {
    if parts != [] {
      StaticExpands(parts[1..]);
      if IsDouble(parts[0]) {
        var e := Static(parts);
        assert e[0..] == e && AllStars(e[..0]);
      } else {
        assert Static(parts)[1..] == Static(parts[1..]);
      }
    }
  }

  /** Some path consists of just one fitting component for every plain part of the pattern. */
  ghost predicate Satisfiable(glob: Glob, parts: seq<Part>) {
    Static(parts) != [] && exists strs :: |strs| == |Static(parts)| && StaticDenotes(glob, Static(parts), strs)
  }

  /** No path that the pattern denotes is answered with "no". */
  ghost predicate Complete(glob: Glob, parts: seq<Part>) {
    forall strs :: Denotes(glob, parts, strs) ==> Matching(glob, parts, strs).May()
  }

  /**
   A further `**` counts as one component when the first one is expanded.  So the
   matcher is complete exactly for patterns with at most one `**`.
   */
  lemma CompleteExactly(glob: Glob, parts: seq<Part>)
    requires Satisfiable(glob, parts)
    ensures Complete(glob, parts) <==> Doubles(parts) <= 1
  {
    if Doubles(parts) <= 1 {
      forall strs | Denotes(glob, parts, strs) ensures Matching(glob, parts, strs).May() {
        Completeness(glob, parts, strs);
      }
    } else {
      var strs :| |strs| == |Static(parts)| && StaticDenotes(glob, Static(parts), strs);
      StaticExpands(parts);
      assert Denotes(glob, parts, strs);
      SomeDouble(parts);
      assert Matching(glob, parts, strs) == Ok(false);
    }
  }

  lemma {:induction false} SomeDouble(parts: seq<Part>)
    requires Doubles(parts) > 0
    ensures FirstDouble(parts) < |parts|
  {
    if !IsDouble(parts[0]) { SomeDouble(parts[1..]); }
  }

  /** For example, `/a` followed by two `**` and `b` does not match the path `/a/b`. */
  lemma TwoDoublesMiss(glob: Glob)
    ensures var d := Part("", false); var a := Part("a", true); var b := Part("b", true); var root := Part("/", true);
            var parts := [root, a, d, d, b]; var strs := ["/", "a", "b"];
            Denotes(glob, parts, strs) && Matching(glob, parts, strs) == Ok(false)
  {
    hide Denotes;
    hide Doubles;
    hide Filled;
    var d, a, b, root := Part("", false), Part("a", true), Part("b", true), Part("/", true);
    var parts, strs, e := [root, a, d, d, b], ["/", "a", "b"], [root, a, b];
    EmptyDoubles([root, a], d, b);
    assert parts == [root, a] + [d, d, b] && e == [root, a] + [b];
    assert StaticDenotes(glob, e, strs) by {
      assert FitsAt(glob, e, strs, 0);
    }
    assert IsDouble(parts[2]);
    assert Denotes(glob, parts, strs) by {
      ExpansionDenotes(glob, parts, e, strs);
    }
  }

  lemma ExpansionDenotes(glob: Glob, parts: seq<Part>, e: seq<Part>, strs: seq<string>)
    requires Expands(parts, e) && StaticDenotes(glob, e, strs)
    ensures Denotes(glob, parts, strs)
  {
  }

  /** Two `**` may stand for nothing. */
  lemma {:induction false} EmptyDoubles(prefix: seq<Part>, d: Part, last: Part)
    requires IsDouble(d) && !IsDouble(last) && forall j :: 0 <= j < |prefix| ==> !IsDouble(prefix[j])
    ensures Expands(prefix + [d, d, last], prefix + [last])
  {
    var parts, e := prefix + [d, d, last], prefix + [last];
    if prefix == [] {
      assert Expands([last], [last]) by { assert [last][1..] == [] && Expands([], []); }
      assert Expands([d, last], [last]) by {
        assert [last][0..] == [last] && [d, last][1..] == [last] && AllStars([last][..0]);
      }
      assert parts[1..] == [d, last] && e[0..] == [last] && AllStars(e[..0]);
    } else {
      EmptyDoubles(prefix[1..], d, last);
      assert parts[1..] == prefix[1..] + [d, d, last] && e[1..] == prefix[1..] + [last];
    }
  }

  // ---------------------------------------------------------------- extension

  lemma StaticExtends(glob: Glob, parts: seq<Part>, strs: seq<string>, ext: seq<string>)
    requires strs != [] && StaticDenotes(glob, parts, strs)
    ensures StaticDenotes(glob, parts, strs + ext)
  {
    var o :| FitsAt(glob, parts, strs, o) && AllowedOffset(parts, strs, o);
    assert FitsAt(glob, parts, strs + ext, o) && AllowedOffset(parts, strs + ext, o);
  }

  /** What matches a directory matches everything below it. */
  lemma {:induction false} Monotone(glob: Glob, parts: seq<Part>, strs: seq<string>, ext: seq<string>)
    requires strs != [] && Matching(glob, parts, strs) == Ok(true)
    ensures Matching(glob, parts, strs + ext).May()
    decreases Doubles(parts)
  {
    if FirstDouble(parts) == |parts| {
      StaticMeaning(glob, parts, strs);
      StaticExtends(glob, parts, strs, ext);
      StaticMeaning(glob, parts, strs + ext);
    } else {
      var n := SearchTrue(glob, parts, strs, 0);
      ExpandDoubles(parts, n);
      Monotone(glob, Expand(parts, n), strs, ext);
      SearchMay(glob, parts, strs + ext, 0, n);
    }
  }

  // ---------------------------------------------------------------- children

  /** Whether something below the path can match. */
  function ChildMatching(glob: Glob, parts: seq<Part>, strs: seq<string>): Outcome
    requires parts != []
  {
    if parts[0].pattern != ROOT then Ok(true)
    else
      var pos := FirstDouble(parts);
      var cut := if pos < |parts| && |strs| >= pos then strs[..pos] else strs;
      var l := if |cut| > |parts| then |parts| else |cut|;
      Matching(glob, parts[..l], cut)
  }

  lemma {:induction false} ExpandsPrefix(parts: seq<Part>, e: seq<Part>)
    requires Expands(parts, e)
    ensures FirstDouble(parts) <= |e|
    ensures forall j :: 0 <= j < FirstDouble(parts) ==> e[j] == parts[j]
  {
    if parts != [] && !IsDouble(parts[0]) {
      ExpandsPrefix(parts[1..], e[1..]);
      assert forall j :: 1 <= j < FirstDouble(parts) ==> e[j] == e[1..][j - 1] && parts[j] == parts[1..][j - 1];
    }
  }

  /** If the path or something below it matches, its children are not ruled out. */
  lemma ChildCovers(glob: Glob, parts: seq<Part>, strs: seq<string>, ext: seq<string>)
    requires parts != [] && strs != [] && Matching(glob, parts, strs + ext) == Ok(true)
    ensures ChildMatching(glob, parts, strs).May()
  {
    if parts[0].pattern == ROOT {
      var e := Soundness(glob, parts, strs + ext);
      ExpandsPrefix(parts, e);
      var pos := FirstDouble(parts);
      var cut := if pos < |parts| && |strs| >= pos then strs[..pos] else strs;
      var l := if |cut| > |parts| then |parts| else |cut|;
      assert e[0] == parts[0];
      assert FitsAt(glob, e, strs + ext, 0);
      var q := parts[..l];
      assert FitsAt(glob, q, cut, 0) by {
        forall j | 0 <= j < |q| ensures Fits(glob, q[j], cut[j]) {
          assert q[j] == e[j] && cut[j] == (strs + ext)[j];
        }
      }
      assert AllowedOffset(q, cut, 0);
      StaticMeaning(glob, q, cut);
      assert FirstDouble(q) == |q|;
    }
  }

  // ---------------------------------------------------------------- pattern lists

  datatype ListOutcome = Listed(matched: bool, childMayMatch: bool) | ListError

  predicate HasNegated(pats: seq<Pattern>) {
    exists k :: 0 <= k < |pats| && pats[k].isNegated
  }

  predicate Nonempty(pats: seq<Pattern>) {
    forall k :: 0 <= k < |pats| ==> pats[k].parts != []
  }

  function ChildAnswer(glob: Glob, pat: Pattern, check: bool, strs: seq<string>): Outcome
    requires pat.parts != []
  {
    if check then ChildMatching(glob, pat.parts, strs) else Ok(true)
  }

  /** Goes through the patterns from position k on. */
  function ListFrom(glob: Glob, pats: seq<Pattern>, check: bool, strs: seq<string>, k: nat, matched: bool,
                    child: bool): ListOutcome
    requires k <= |pats| && Nonempty(pats)
    decreases |pats| - k
  {
    if k == |pats| then Listed(matched, child)
    else
      var m := Matching(glob, pats[k].parts, strs);
      if m.BadPattern? then ListError
      else
        var c := ChildAnswer(glob, pats[k], check, strs);
        if c.BadPattern? then ListError
        else if pats[k].isNegated then
          ListFrom(glob, pats, check, strs, k + 1, matched && !m.matched, child && !m.matched)
        else if (matched || m.matched) && (child || c.matched) && !HasNegated(pats) then
          Listed(true, true)
        else
          ListFrom(glob, pats, check, strs, k + 1, matched || m.matched, child || c.matched)
  }

  /** The answer of an ordered pattern list; the empty path is refused. */
  function Listing(glob: Glob, pats: seq<Pattern>, check: bool, strs: seq<string>): ListOutcome
    requires Nonempty(pats)
  {
    if pats == [] then Listed(false, false)
    else if strs == [] then ListError
    else ListFrom(glob, pats, check, strs, 0, false, false)
  }

  /** Without negated patterns, children that may match once may match in the end. */
  lemma {:induction false} ChildSticks(glob: Glob, pats: seq<Pattern>, check: bool, strs: seq<string>, k: nat,
                                       matched: bool)
    requires k <= |pats| && Nonempty(pats) && !HasNegated(pats)
    ensures var r := ListFrom(glob, pats, check, strs, k, matched, true); r.Listed? ==> r.childMayMatch
    decreases |pats| - k
  {
    if k < |pats| {
      var m := Matching(glob, pats[k].parts, strs);
      ChildSticks(glob, pats, check, strs, k + 1, matched || (m.Ok? && m.matched));
    }
  }

  /**
   Two runs side by side, for a directory and for something below it: as long as
   the lower path counts as matched, the directory's children count as possible.
   */
  lemma {:induction false} PruneFrom(glob: Glob, pats: seq<Pattern>, strs: seq<string>, ext: seq<string>, check: bool,
                                     k: nat, m1: bool, c1: bool, m2: bool, c2: bool)
    requires k <= |pats| && Nonempty(pats) && strs != []
    requires m2 ==> c1
    ensures var dir := ListFrom(glob, pats, true, strs, k, m1, c1);
            var sub := ListFrom(glob, pats, check, strs + ext, k, m2, c2);
            dir.Listed? && !dir.childMayMatch && sub.Listed? ==> !sub.matched
    decreases |pats| - k
  {
    if k < |pats| {
      var p := pats[k];
      var dm, sm := Matching(glob, p.parts, strs), Matching(glob, p.parts, strs + ext);
      var dc, sc := ChildAnswer(glob, p, true, strs), ChildAnswer(glob, p, check, strs + ext);
      if dm.Ok? && sm.Ok? && dc.Ok? && sc.Ok? {
        if dm.matched { Monotone(glob, p.parts, strs, ext); }
        if sm.matched { ChildCovers(glob, p.parts, strs, ext); }
        if p.isNegated {
          PruneFrom(glob, pats, strs, ext, check, k + 1,
                    m1 && !dm.matched, c1 && !dm.matched, m2 && !sm.matched, c2 && !sm.matched);
        } else {
          PruneFrom(glob, pats, strs, ext, check, k + 1,
                    m1 || dm.matched, c1 || dc.matched, m2 || sm.matched, c2 || sc.matched);
          if !HasNegated(pats) && (m2 || sm.matched) {
            ChildSticks(glob, pats, true, strs, k + 1, m1 || dm.matched);
          }
        }
      }
    }
  }

  /** Pruning is safe: where no child may match, nothing below matches, negated patterns or not. */
  lemma PruningSafe(glob: Glob, pats: seq<Pattern>, strs: seq<string>, ext: seq<string>, check: bool)
    requires Nonempty(pats) && strs != []
    requires Listing(glob, pats, true, strs).Listed? && !Listing(glob, pats, true, strs).childMayMatch
    requires Listing(glob, pats, check, strs + ext).Listed?
    ensures !Listing(glob, pats, check, strs + ext).matched
  {
    PruneFrom(glob, pats, strs, ext, check, 0, false, false, false, false);
  }

  /** A pattern that is not negated matches, and no later negated one does. */
  ghost predicate LastWord(glob: Glob, pats: seq<Pattern>, strs: seq<string>, k: nat) {
    exists j :: k <= j < |pats| && !pats[j].isNegated && Matching(glob, pats[j].parts, strs) == Ok(true) &&
      NotRevoked(glob, pats, strs, j + 1)
  }

  ghost predicate NotRevoked(glob: Glob, pats: seq<Pattern>, strs: seq<string>, k: nat) {
    forall j :: k <= j < |pats| && pats[j].isNegated ==> Matching(glob, pats[j].parts, strs) != Ok(true)
  }

  lemma {:induction false} ListFromMeaning(glob: Glob, pats: seq<Pattern>, check: bool, strs: seq<string>, k: nat,
                                           matched: bool, child: bool)
    requires k <= |pats| && Nonempty(pats)
    ensures var r := ListFrom(glob, pats, check, strs, k, matched, child);
            r.Listed? ==> (r.matched <==> LastWord(glob, pats, strs, k) || (matched && NotRevoked(glob, pats, strs, k)))
    decreases |pats| - k
  {
    if k < |pats| {
      var m := Matching(glob, pats[k].parts, strs);
      var c := ChildAnswer(glob, pats[k], check, strs);
      if m.Ok? && c.Ok? {
        if pats[k].isNegated {
          ListFromMeaning(glob, pats, check, strs, k + 1, matched && !m.matched, child && !m.matched);
        } else {
          ListFromMeaning(glob, pats, check, strs, k + 1, matched || m.matched, child || c.matched);
        }
      }
    }
  }

  /** The last pattern that matches a path decides. */
  lemma ListingMeaning(glob: Glob, pats: seq<Pattern>, check: bool, strs: seq<string>)
    requires Nonempty(pats) && Listing(glob, pats, check, strs).Listed?
    ensures Listing(glob, pats, check, strs).matched <==> LastWord(glob, pats, strs, 0)
  {
    if pats != [] {
      ListFromMeaning(glob, pats, check, strs, 0, false, false);
    }
  }

  // ---------------------------------------------------------------- the matcher itself

  method HasDoubleWildcard(parts: seq<Part>) returns (ok: bool, pos: nat)
    ensures ok <==> FirstDouble(parts) < |parts|
    ensures ok ==> pos == FirstDouble(parts)
  {
    for i := 0 to |parts|
      invariant forall j :: 0 <= j < i ==> !IsDouble(parts[j])
    {
      if IsDouble(parts[i]) {
        return true, i;
      }
    }
    ok, pos := false, 0;
  }

  /** Writes the parts after the `**` behind the prefix and the wildcards, in place. */
  method AppendTail(scratch: array<Part>, start: nat, tail: seq<Part>)
    requires start + |tail| <= scratch.Length
    modifies scratch
    ensures scratch[..start] == old(scratch[..start])
    ensures scratch[..start + |tail|] == old(scratch[..start]) + tail
  {
    for t := 0 to |tail|
      invariant scratch[..start] == old(scratch[..start])
      invariant scratch[start..start + t] == tail[..t]
    {
      scratch[start + t] := tail[t];
    }
    assert scratch[..start + |tail|] == scratch[..start] + scratch[start..start + |tail|];
  }

  method MatchStatic(glob: Glob, parts: seq<Part>, strs: seq<string>) returns (r: Outcome)
    ensures r == StaticMatch(glob, parts, strs)
  {
    if |parts| == 0 && |strs| == 0 {
      return Ok(true);
    }
    if |parts| == 0 {
      return Ok(false);
    }
    if |parts| <= |strs| {
      var minOffset, maxOffset := 0, |strs| - |parts|;
      if parts[0].pattern == ROOT {
        maxOffset := 0;
      } else if strs[0] == ROOT {
        minOffset := 1;
      }
      var offset := maxOffset;
      while offset >= minOffset
        invariant offset + |parts| <= |strs|
        invariant MatchDown(glob, parts, strs, offset, minOffset) == StaticMatch(glob, parts, strs)
        decreases offset
      {
        var i := |parts| - 1;
        var fits := true;
        while i >= 0
          invariant -1 <= i < |parts|
          invariant fits && MatchAt(glob, parts, strs, offset, i + 1) == MatchAt(glob, parts, strs, offset, |parts|)
        {
          var ok := PartMatch(glob, parts[i], strs[offset + i]);
          if ok.Malformed? {
            return BadPattern;
          }
          if !ok.matched {
            fits := false;
            break;
          }
          i := i - 1;
        }
        if fits {
          return Ok(true);
        }
        offset := offset - 1;
      }
    }
    r := Ok(false);
  }

  /** The scratch array starts with the prefix of the pattern and i wildcards. */
  ghost predicate Prepared(scratch: array<Part>, parts: seq<Part>, pos: nat, i: nat)
    reads scratch
  {
    pos + i <= scratch.Length && pos <= |parts| && scratch[..pos + i] == parts[..pos] + Stars(i)
  }

  /** Turns the scratch array into the i-th expansion: one more wildcard, then the tail. */
  method NextExpansion(scratch: array<Part>, parts: seq<Part>, pos: nat, i: nat) returns (newPat: seq<Part>)
    requires pos == FirstDouble(parts) < |parts| && |parts| - 1 + i <= scratch.Length
    requires Prepared(scratch, parts, pos, if i == 0 then 0 else i - 1)
    modifies scratch
    ensures Prepared(scratch, parts, pos, i)
    ensures newPat == scratch[..|parts| - 1 + i] == Expand(parts, i)
  {
    hide FirstDouble;
    if i > 0 {
      scratch[pos + i - 1] := STAR;
      assert Stars(i) == Stars(i - 1) + [STAR];
      assert scratch[..pos + i] == scratch[..pos + i - 1] + [STAR];
    }
    AppendTail(scratch, pos + i, parts[pos + 1..]);
    newPat := scratch[..|parts| - 1 + i];
  }

  /**
   Matching with one scratch array for all expansions of the first `**`: before
   every recursive call its beginning is the prefix, the wildcards and the tail.
   */
  method Match(glob: Glob, parts: seq<Part>, strs: seq<string>) returns (r: Outcome)
    ensures r == Matching(glob, parts, strs)
    decreases Doubles(parts)
  {
    hide StaticMatch;
    hide FirstDouble;
    hide Expand;
    var ok, pos := HasDoubleWildcard(parts);
    if !ok {
      r := MatchStatic(glob, parts, strs);
      return;
    }
    var scratch := new Part[|strs|](_ => Part("", false));
    CopyPrefix(scratch, parts[..pos]);
    var i := 0;
    while i <= |strs| - |parts| + 1
      invariant pos <= |strs| ==> Prepared(scratch, parts, pos, if i == 0 then 0 else i - 1)
      invariant Search(glob, parts, strs, i) == Search(glob, parts, strs, 0)
      decreases |strs| + 2 - i
    {
      var newPat := NextExpansion(scratch, parts, pos, i);
      ExpandDoubles(parts, i);
      r := Match(glob, newPat, strs);
      if r != Ok(false) {
        return;
      }
      i := i + 1;
    }
    r := Ok(false);
  }

  /** Copies as much of the prefix as fits. */
  method CopyPrefix(scratch: array<Part>, prefix: seq<Part>)
    modifies scratch
    ensures |prefix| <= scratch.Length ==> Prepared(scratch, prefix, |prefix|, 0)
  {
    for j := 0 to if |prefix| < scratch.Length then |prefix| else scratch.Length
      invariant scratch[..j] == prefix[..j]
    {
      scratch[j] := prefix[j];
    }
    assert |prefix| <= scratch.Length ==> scratch[..|prefix| + 0] == prefix[..|prefix|] + Stars(0);
  }

  /** Goes through an ordered pattern list. */
  method List(glob: Glob, pats: seq<Pattern>, check: bool, strs: seq<string>) returns (r: ListOutcome)
    requires Nonempty(pats)
    ensures r == Listing(glob, pats, check, strs)
  {
    hide Matching;
    hide ChildMatching;
    if |pats| == 0 {
      return Listed(false, false);
    }
    if strs == [] {
      return ListError;
    }
    var hasNegated := false;
    for k := 0 to |pats|
      invariant hasNegated <==> exists j :: 0 <= j < k && pats[j].isNegated
    {
      hasNegated := hasNegated || pats[k].isNegated;
    }
    var matched, child := false, false;
    for k := 0 to |pats|
      invariant ListFrom(glob, pats, check, strs, k, matched, child) == Listing(glob, pats, check, strs)
    {
      var m := Match(glob, pats[k].parts, strs);
      if m.BadPattern? {
        return ListError;
      }
      var c := Ok(true);
      if check {
        c := ChildMatching(glob, pats[k].parts, strs);
        if c.BadPattern? {
          return ListError;
        }
      }
      if pats[k].isNegated {
        matched, child := matched && !m.matched, child && !m.matched;
      } else {
        matched, child := matched || m.matched, child || c.matched;
        if matched && child && !hasNegated {
          return Listed(matched, child);
        }
      }
    }
    r := Listed(matched, child);
  }
}
