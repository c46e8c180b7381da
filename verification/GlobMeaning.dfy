/** Which paths a glob walk yields, and how often: one yield for each way the pattern parts can be
    laid over the path. */
module GlobMeaning {
  import opened Wrappers
  import opened GlobWalk

  function Count(paths: seq<Path>, p: Path): nat
    decreases |paths|
  {
    if paths == [] then 0 else (if paths[0] == p then 1 else 0) + Count(paths[1..], p)
  }

  /** What a path meets on the way: the kind of each component, if every one of them is listed
      and all but the last are directories that can be entered. Independent of the pattern. */
  function Trace(fs: FileSystem, at: NodeId, p: Path, visited: set<Key>): (t: Option<seq<Kind>>)
    ensures t.Some? ==> |t.value| == |p|
    decreases |p|
  {
    if p == [] then Some([])
    else if Readable(fs, at).None? || p[0] !in Readable(fs, at).value then None
    else
      var k := KindOf(fs, at, p[0], visited);
      if |p| == 1 then Some([k])
      else if !k.FreshDir? then None
      else
        var rest := Trace(fs, k.id, p[1..], Entering(fs, k.id, visited));
        if rest.None? then None else Some([k] + rest.value)
  }

  /** The number of ways to lay the pattern over the path: `**` takes any number of entered
      directories, and at the very end also one entry that is not a directory. */
  function Ways(accepts: Accepts, pats: seq<string>, p: Path, kinds: seq<Kind>): nat
    requires |p| == |kinds|
    decreases |pats| + |p|
  {
    if pats == [] then 0
    else if IsStar(pats) then
      (if |pats| > 1 then Ways(accepts, pats[1..], p, kinds) else if p == [] then 1 else 0)
      + (if p == [] then 0
         else match kinds[0]
              case FreshDir(_) => Ways(accepts, pats, p[1..], kinds[1..])
              case NonDir => if |pats| == 1 && |p| == 1 then 1 else 0
              case _ => 0)
    else if p == [] || !accepts(pats[0], p[0]) then 0
    else if |pats| == 1 then (if |p| == 1 then 1 else 0)
    else if kinds[0].FreshDir? then Ways(accepts, pats[1..], p[1..], kinds[1..])
    else 0
  }

  /** A listing never holds the same name twice. */
  ghost predicate ProperListings(fs: FileSystem) {
    forall d :: Readable(fs, d).Some? ==> Distinct(Readable(fs, d).value)
  }

  function WaysAlong(fs: FileSystem, accepts: Accepts, at: NodeId, pats: seq<string>,
                     visited: set<Key>, p: Path): nat
  {
    var t := Trace(fs, at, p, visited);
    if t.None? then 0 else Ways(accepts, pats, p, t.value)
  }

  // ---- Counting -----------------------------------------------------------------------------

  lemma {:induction false} CountConcat(a: seq<Path>, b: seq<Path>, p: Path)
    ensures Count(a + b, p) == Count(a, p) + Count(b, p)
    decreases |a|
  {
    if a == [] {
      assert a + b == b;
    } else {
      assert (a + b)[1..] == a[1..] + b;
      CountConcat(a[1..], b, p);
    }
  }

  lemma {:induction false} CountUnder(name: string, paths: seq<Path>, p: Path)
    ensures Count(Under(name, paths), p)
         == if p != [] && p[0] == name then Count(paths, p[1..]) else 0
    decreases |paths|
  {
    if paths != [] {
      var u := Under(name, paths);
      assert u[0] == [name] + paths[0];
      assert u[1..] == Under(name, paths[1..]);
      CountUnder(name, paths[1..], p);
      if p != [] && p[0] == name {
        assert p == [name] + p[1..];
        assert u[0][1..] == paths[0];
      } else {
        assert u[0][0] == name;
      }
    }
  }

  lemma CountOne(q: Path, p: Path)
    ensures Count([q], p) == if p == q then 1 else 0
    ensures Count([], p) == 0
  {
    assert [q][1..] == [];
  }

  /** The yields of one entry, counted. */
  function EntryWays(fs: FileSystem, accepts: Accepts, d: NodeId, name: string,
                     pats: seq<string>, visited: set<Key>, p: Path): nat
    requires IsDir(fs, d) && pats != []
  {
    if p == [] || p[0] != name then 0
    else
      var k := KindOf(fs, d, name, visited);
      if IsStar(pats) then
        match k
        case FreshDir(id) =>
          WaysAlong(fs, accepts, id, pats, Entering(fs, id, visited), p[1..])
        case NonDir => if |pats| == 1 && |p| == 1 then 1 else 0
        case _ => 0
      else if !accepts(pats[0], name) then 0
      else if |pats| == 1 then (if |p| == 1 then 1 else 0)
      else
        match k
        case FreshDir(id) =>
          WaysAlong(fs, accepts, id, pats[1..], Entering(fs, id, visited), p[1..])
        case _ => 0
  }

  lemma OnePath(name: string, p: Path)
    ensures p == [name] <==> |p| == 1 && p[0] == name
  {}

  /** Every way to match a path either starts with the pattern's head at this directory, or
      goes through the entry the path starts with. */
  lemma WaysSplit(fs: FileSystem, accepts: Accepts, at: NodeId, pats: seq<string>,
                  visited: set<Key>, p: Path)
    requires pats != []
    ensures WaysAlong(fs, accepts, at, pats, visited, p)
         == (if !IsStar(pats) then 0
             else if |pats| > 1 then WaysAlong(fs, accepts, at, pats[1..], visited, p)
             else if p == [] then 1 else 0)
            + (if p == [] || Readable(fs, at).None? || p[0] !in Readable(fs, at).value then 0
               else EntryWays(fs, accepts, at, p[0], pats, visited, p))
  {
    hide KindOf, Entering;
    if p != [] && Readable(fs, at).Some? && p[0] in Readable(fs, at).value {
      var k := KindOf(fs, at, p[0], visited);
      if |p| == 1 {
        assert p[1..] == [] && [k][1..] == [];
      } else if k.FreshDir? {
        var rest := Trace(fs, k.id, p[1..], Entering(fs, k.id, visited));
        if rest.Some? {
          assert ([k] + rest.value)[1..] == rest.value;
        }
      }
    }
  }

  lemma NoPattern(fs: FileSystem, accepts: Accepts, at: NodeId, visited: set<Key>, p: Path)
    ensures WaysAlong(fs, accepts, at, [], visited, p) == 0
  {}

  lemma {:induction false} CountWalk(fs: FileSystem, accepts: Accepts, at: NodeId,
                                     pats: seq<string>, visited: set<Key>, p: Path)
    requires Keyed(fs) && ProperListings(fs)
    ensures Count(Walk(fs, accepts, at, pats, visited), p)
         == WaysAlong(fs, accepts, at, pats, visited, p)
    decreases Unvisited(fs, visited), |pats|, 2, 0
  {
    hide Count, Trace, Ways, OfEntries, Unvisited;
    if pats == [] {
      CountOne([], p);
      NoPattern(fs, accepts, at, visited, p);
    } else {
      CountOne([], p);
      var head := if !IsStar(pats) then []
                  else if |pats| > 1 then Walk(fs, accepts, at, pats[1..], visited)
                  else [[]];
      if IsStar(pats) && |pats| > 1 {
        CountWalk(fs, accepts, at, pats[1..], visited, p);
      }
      if Readable(fs, at).Some? {
        var names := Readable(fs, at).value;
        CountEntries(fs, accepts, at, names, pats, visited, p);
        CountConcat(head, OfEntries(fs, accepts, at, names, pats, visited), p);
      } else {
        CountConcat(head, [], p);
      }
      WaysSplit(fs, accepts, at, pats, visited, p);
    }
  }

  lemma {:induction false} CountEntries(fs: FileSystem, accepts: Accepts, d: NodeId,
                                        names: seq<string>, pats: seq<string>,
                                        visited: set<Key>, p: Path)
    requires Keyed(fs) && ProperListings(fs) && IsDir(fs, d) && pats != [] && Distinct(names)
    ensures Count(OfEntries(fs, accepts, d, names, pats, visited), p)
         == if p != [] && p[0] in names then EntryWays(fs, accepts, d, p[0], pats, visited, p)
            else 0
    decreases Unvisited(fs, visited), |pats|, 1, |names|
  {
    hide Count, OfEntry, WaysAlong, Unvisited;
    CountOne([], p);
    if names != [] {
      var rest := names[1..];
      CountEntry(fs, accepts, d, names[0], pats, visited, p);
      CountEntries(fs, accepts, d, rest, pats, visited, p);
      CountConcat(OfEntry(fs, accepts, d, names[0], pats, visited),
                  OfEntries(fs, accepts, d, rest, pats, visited), p);
      assert names[0] !in rest;
    }
  }

  lemma {:induction false} CountEntry(fs: FileSystem, accepts: Accepts, d: NodeId, name: string,
                                      pats: seq<string>, visited: set<Key>, p: Path)
    requires Keyed(fs) && ProperListings(fs) && IsDir(fs, d) && pats != []
    ensures Count(OfEntry(fs, accepts, d, name, pats, visited), p)
         == EntryWays(fs, accepts, d, name, pats, visited, p)
    decreases Unvisited(fs, visited), |pats|, 0, 0
  {
    hide Count, Walk, WaysAlong, Unvisited, Entering, KindOf;
    CountOne([name], p);
    OnePath(name, p);
    match KindOf(fs, d, name, visited)
    case FreshDir(id) =>
      var entered := Entering(fs, id, visited);
      DescentShrinks(fs, d, name, visited);
      CountUnder(name, Walk(fs, accepts, id, pats, entered), p);
      CountUnder(name, Walk(fs, accepts, id, pats[1..], entered), p);
      if p != [] {
        CountWalk(fs, accepts, id, pats, entered, p[1..]);
        CountWalk(fs, accepts, id, pats[1..], entered, p[1..]);
      }
    case _ =>
  }

  // ---- Matching -----------------------------------------------------------------------------

  /** The glob semantics, said of components: `**` takes zero or more of them, a plain segment
      exactly one. A trailing `**` that takes nothing needs the path to end in a directory. */
  ghost predicate Matches(accepts: Accepts, pats: seq<string>, p: Path, endsInDir: bool)
    decreases |pats|
  {
    if pats == [] then false
    else if IsStar(pats) then
      if |pats| == 1 then p != [] || endsInDir
      else exists k :: 0 <= k <= |p| && Matches(accepts, pats[1..], p[k..], endsInDir)
    else
      && p != [] && accepts(pats[0], p[0])
      && if |pats| == 1 then |p| == 1
         else (|p| > 1 || endsInDir) && Matches(accepts, pats[1..], p[1..], endsInDir)
  }

  ghost predicate EndsInDir(kinds: seq<Kind>) { kinds == [] || kinds[|kinds| - 1].FreshDir? }

  /** `**` in front: drop it, or let it take the first component. */
  lemma MatchesStar(accepts: Accepts, pats: seq<string>, p: Path, endsInDir: bool)
    requires IsStar(pats) && |pats| > 1 && p != []
    ensures Matches(accepts, pats, p, endsInDir) <==>
            Matches(accepts, pats[1..], p, endsInDir) || Matches(accepts, pats, p[1..], endsInDir)
  {
    assert p[0..] == p;
    if Matches(accepts, pats, p, endsInDir) && !Matches(accepts, pats[1..], p, endsInDir) {
      var k :| 0 <= k <= |p| && Matches(accepts, pats[1..], p[k..], endsInDir);
      assert p[1..][k - 1..] == p[k..];
    }
    if Matches(accepts, pats, p[1..], endsInDir) {
      var k :| 0 <= k <= |p[1..]| && Matches(accepts, pats[1..], p[1..][k..], endsInDir);
      assert p[1..][k..] == p[k + 1..];
    }
  }

  lemma MatchesStarEmpty(accepts: Accepts, pats: seq<string>, endsInDir: bool)
    requires IsStar(pats) && |pats| > 1
    ensures Matches(accepts, pats, [], endsInDir) <==> Matches(accepts, pats[1..], [], endsInDir)
  {
    var e: Path := [];
    assert e[0..] == e;
    if Matches(accepts, pats, e, endsInDir) {
      var k :| 0 <= k <= |e| && Matches(accepts, pats[1..], e[k..], endsInDir);
      assert e[k..] == e;
    }
  }

  lemma MatchesNeedsDir(accepts: Accepts, pats: seq<string>)
    requires |pats| > 0
    ensures !Matches(accepts, pats, [], false)
    decreases |pats|
  {
    if IsStar(pats) && |pats| > 1 {
      MatchesStarEmpty(accepts, pats, false);
      MatchesNeedsDir(accepts, pats[1..]);
    }
  }

  /** All but the last are directories that are entered. */
  ghost predicate EntersAll(kinds: seq<Kind>) {
    forall i :: 0 <= i < |kinds| - 1 ==> kinds[i].FreshDir?
  }

  /** What a trailing `**` takes last has to be entered, or be no directory. */
  ghost predicate LastTaken(pats: seq<string>, kinds: seq<Kind>) {
    pats != [] && Last(pats) == "**" && kinds != [] ==> Last(kinds).FreshDir? || Last(kinds).NonDir?
  }

  lemma EntersTail(kinds: seq<Kind>)
    requires EntersAll(kinds) && kinds != []
    ensures EntersAll(kinds[1..])
    ensures kinds[0].FreshDir? ==> EndsInDir(kinds[1..]) == EndsInDir(kinds)
    ensures |kinds| > 1 ==> kinds[0].FreshDir?
    ensures |kinds| == 1 ==> EndsInDir(kinds) == kinds[0].FreshDir?
  {
    assert forall i :: 0 <= i < |kinds[1..]| ==> kinds[1..][i] == kinds[i + 1];
  }

  lemma LastTakenTail(pats: seq<string>, kinds: seq<Kind>)
    ensures |pats| > 1 ==> (LastTaken(pats[1..], kinds) <==> LastTaken(pats, kinds))
    ensures kinds != [] && kinds[0].FreshDir? ==>
              (LastTaken(pats, kinds[1..]) <==> LastTaken(pats, kinds))
  {}

  /** A path is yielded at least once exactly when it matches, and its last component is not a
      directory that the cycle check turns away from a trailing `**`. */
  lemma {:induction false} WaysIffMatches(accepts: Accepts, pats: seq<string>, p: Path,
                                          kinds: seq<Kind>)
    requires |p| == |kinds| && EntersAll(kinds)
    ensures Ways(accepts, pats, p, kinds) > 0
       <==> Matches(accepts, pats, p, EndsInDir(kinds)) && LastTaken(pats, kinds)
    decreases |pats| + |p|
  {
    hide EntersAll, EndsInDir, LastTaken;
    var dir := EndsInDir(kinds);
    LastTakenTail(pats, kinds);
    if pats == [] {
    } else if IsStar(pats) {
      if |pats| > 1 {
        WaysIffMatches(accepts, pats[1..], p, kinds);
      }
      if p == [] {
        EmptyEndsInDir(kinds);
        LastTakenEmpty(pats);
        if |pats| > 1 {
          MatchesStarEmpty(accepts, pats, dir);
        }
      } else {
        EntersTail(kinds);
        if |pats| > 1 {
          MatchesStar(accepts, pats, p, dir);
        }
        if kinds[0].FreshDir? {
          WaysIffMatches(accepts, pats, p[1..], kinds[1..]);
        } else {
          assert p[1..] == [];
          LastTakenOne(pats, kinds);
          if |pats| > 1 {
            MatchesNeedsDir(accepts, pats);
          }
        }
      }
    } else if p != [] {
      EntersTail(kinds);
      LastTakenOne(pats, kinds);
      if |pats| > 1 {
        if kinds[0].FreshDir? {
          WaysIffMatches(accepts, pats[1..], p[1..], kinds[1..]);
          LastTakenTail(pats[1..], kinds);
        } else {
          assert p[1..] == [];
        }
      }
    }
  }

  lemma LastTakenEmpty(pats: seq<string>)
    ensures LastTaken(pats, [])
  {}

  lemma LastTakenOne(pats: seq<string>, kinds: seq<Kind>)
    ensures |pats| == 1 && |kinds| == 1 && IsStar(pats) ==>
              (LastTaken(pats, kinds) <==> kinds[0].FreshDir? || kinds[0].NonDir?)
    ensures |pats| == 1 && !IsStar(pats) ==> LastTaken(pats, kinds)
  {}

  lemma EmptyEndsInDir(kinds: seq<Kind>)
    requires kinds == []
    ensures EndsInDir(kinds)
  {}

  function Stars(pats: seq<string>): nat
    decreases |pats|
  {
    if pats == [] then 0 else (if IsStar(pats) then 1 else 0) + Stars(pats[1..])
  }

  /** Without a second `**` there is only one way to lay a pattern over a path. */
  lemma {:induction false} OneStarOneWay(accepts: Accepts, pats: seq<string>, p: Path,
                                         kinds: seq<Kind>)
    requires |p| == |kinds| && Stars(pats) <= 1
    ensures Ways(accepts, pats, p, kinds) <= 1
    ensures Stars(pats) == 0 && |p| != |pats| ==> Ways(accepts, pats, p, kinds) == 0
    decreases |pats| + |p|
  {
    if pats != [] {
      if IsStar(pats) {
        if |pats| > 1 {
          OneStarOneWay(accepts, pats[1..], p, kinds);
        }
        if p != [] {
          StarNeedsLength(accepts, pats, p[1..], kinds[1..]);
          OneStarOneWay(accepts, pats, p[1..], kinds[1..]);
        }
      } else if p != [] && |pats| > 1 {
        OneStarOneWay(accepts, pats[1..], p[1..], kinds[1..]);
      }
    }
  }

  /** With one `**`, in front, the rest of the pattern fixes how many components it takes. */
  lemma {:induction false} StarNeedsLength(accepts: Accepts, pats: seq<string>, p: Path,
                                           kinds: seq<Kind>)
    requires |p| == |kinds| && IsStar(pats) && Stars(pats) <= 1
    ensures |p| < |pats| - 1 ==> Ways(accepts, pats, p, kinds) == 0
    decreases |pats| + |p|
  {
    if |p| < |pats| - 1 {
      OneStarOneWay(accepts, pats[1..], p, kinds);
      if p != [] {
        StarNeedsLength(accepts, pats, p[1..], kinds[1..]);
      }
    }
  }
}
