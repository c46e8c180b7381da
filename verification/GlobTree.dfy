/** Glob on a tree of directories: the cycle check never fires, the walk yields the matching paths,
    and the SFTP walker of packages/kaos/src/ssh.ts, which has no cycle check, yields the same. */
module GlobTree {
  import opened Wrappers
  import opened GlobWalk
  import opened GlobMeaning
  import opened GlobEnds
  import opened GlobLoops

  /** No symbolic links, no failing stat: every listed name has a node, directories have an
      identity of their own, and `rank` falls on the way down. */
  ghost predicate Tree(fs: FileSystem, rank: NodeId -> nat) {
    && Keyed(fs) && ProperListings(fs)
    && (forall d, e :: IsDir(fs, d) && IsDir(fs, e) && KeyOf(fs, d) == KeyOf(fs, e) ==> d == e)
    && (forall d, name :: Readable(fs, d).Some? && name in Readable(fs, d).value ==>
          && name in fs[d].targets && fs[d].targets[name] in fs
          && (IsDir(fs, fs[d].targets[name]) ==> rank(fs[d].targets[name]) < rank(d)))
  }

  /** Nothing strictly below `at` has been visited. */
  ghost predicate Above(fs: FileSystem, rank: NodeId -> nat, at: NodeId, visited: set<Key>) {
    forall e :: IsDir(fs, e) && rank(e) < rank(at) ==> KeyOf(fs, e) !in visited
  }

  lemma TreeKind(fs: FileSystem, rank: NodeId -> nat, d: NodeId, name: string, visited: set<Key>)
    requires Tree(fs, rank) && Above(fs, rank, d, visited)
    requires Readable(fs, d).Some? && name in Readable(fs, d).value
    ensures var id := fs[d].targets[name];
            KindOf(fs, d, name, visited) == if IsDir(fs, id) then FreshDir(id) else NonDir
    ensures var id := fs[d].targets[name];
            IsDir(fs, id) ==>
              rank(id) < rank(d) && Above(fs, rank, id, Entering(fs, id, visited))
  {
    var id := fs[d].targets[name];
    if IsDir(fs, id) {
      assert KeyOf(fs, id) !in visited;
    }
  }

  lemma RootIsAbove(fs: FileSystem, rank: NodeId -> nat, at: NodeId)
    requires Tree(fs, rank)
    ensures Above(fs, rank, at, RootVisited(fs, at))
  {}

  // ---- The paths of a tree ------------------------------------------------------------------

  /** The path names something below `at`. */
  predicate Exists(fs: FileSystem, at: NodeId, p: Path)
    decreases |p|
  {
    p == [] ||
    (&& Readable(fs, at).Some? && p[0] in Readable(fs, at).value
     && p[0] in fs[at].targets && fs[at].targets[p[0]] in fs
     && (|p| == 1 || (IsDir(fs, fs[at].targets[p[0]]) && Exists(fs, fs[at].targets[p[0]], p[1..]))))
  }

  /** The path names a directory; the starting point counts as one. */
  predicate NamesDir(fs: FileSystem, at: NodeId, p: Path)
    requires Exists(fs, at, p)
    decreases |p|
  {
    if p == [] then true
    else if |p| == 1 then IsDir(fs, fs[at].targets[p[0]])
    else NamesDir(fs, fs[at].targets[p[0]], p[1..])
  }

  lemma {:induction false} TraceOnTree(fs: FileSystem, rank: NodeId -> nat, at: NodeId, p: Path,
                                       visited: set<Key>)
    requires Tree(fs, rank) && Above(fs, rank, at, visited)
    ensures Trace(fs, at, p, visited).Some? <==> Exists(fs, at, p)
    ensures Exists(fs, at, p) ==>
              var kinds := Trace(fs, at, p, visited).value;
              && EntersAll(kinds) && EndsInDir(kinds) == NamesDir(fs, at, p)
              && forall i :: 0 <= i < |kinds| ==> kinds[i].FreshDir? || kinds[i].NonDir?
    decreases |p|
  {
    hide Tree, Above, KindOf, Entering;
    if p != [] && Readable(fs, at).Some? && p[0] in Readable(fs, at).value {
      TreeKind(fs, rank, at, p[0], visited);
      TargetExists(fs, rank, at, p[0]);
      var id := fs[at].targets[p[0]];
      if |p| > 1 && IsDir(fs, id) {
        TraceOnTree(fs, rank, id, p[1..], Entering(fs, id, visited));
      }
    }
  }

  lemma TargetExists(fs: FileSystem, rank: NodeId -> nat, d: NodeId, name: string)
    requires Tree(fs, rank) && Readable(fs, d).Some? && name in Readable(fs, d).value
    ensures name in fs[d].targets && fs[d].targets[name] in fs
  {}

  /** On a tree, glob yields exactly the existing paths that match, and each of them once when
      the pattern has at most one `**`. */
  lemma GlobYieldsMatches(fs: FileSystem, rank: NodeId -> nat, accepts: Accepts, at: NodeId,
                          pats: seq<string>, p: Path)
    requires Tree(fs, rank)
    ensures var n := Count(Walk(fs, accepts, at, pats, RootVisited(fs, at)), p);
            && (n > 0 <==> Exists(fs, at, p) && Matches(accepts, pats, p, NamesDir(fs, at, p)))
            && (Stars(pats) <= 1 ==> n <= 1)
  {
    hide Count, Walk, Trace, Ways, Exists, Matches, EntersAll;
    var visited := RootVisited(fs, at);
    RootIsAbove(fs, rank, at);
    CountWalk(fs, accepts, at, pats, visited, p);
    TraceOnTree(fs, rank, at, p, visited);
    if Exists(fs, at, p) {
      var kinds := Trace(fs, at, p, visited).value;
      WaysIffMatches(accepts, pats, p, kinds);
      if Stars(pats) <= 1 {
        OneStarOneWay(accepts, pats, p, kinds);
      }
    }
  }

  // ---- The SFTP walker ----------------------------------------------------------------------

  predicate IsDot(name: string) { name == "." || name == ".." }

  function WithoutDots(names: seq<string>): seq<string>
    decreases |names|
  {
    if names == [] then []
    else (if IsDot(names[0]) then [] else [names[0]]) + WithoutDots(names[1..])
  }

  lemma {:induction false} DotsAreGone(names: seq<string>, name: string)
    ensures name in WithoutDots(names) <==> name in names && name != "." && name != ".."
    decreases |names|
  {
    if names != [] {
      DotsAreGone(names[1..], name);
      assert names == [names[0]] + names[1..];
    }
  }

  /** SFTP listings: what the local listing holds, with `.` and `..` possibly among it. */
  ghost predicate SameListings(fs: FileSystem, raw: map<NodeId, seq<string>>) {
    && (forall d :: d in raw <==> Readable(fs, d).Some?)
    && (forall d :: d in raw ==> WithoutDots(raw[d]) == Readable(fs, d).value)
  }

  lemma WithoutDotsTail(names: seq<string>, i: nat)
    requires i < |names|
    ensures WithoutDots(names[i..])
         == (if IsDot(names[i]) then [] else [names[i]]) + WithoutDots(names[i + 1..])
  {
    assert names[i..][1..] == names[i + 1..];
  }

  lemma {:induction false} WithoutDotsKeeps(names: seq<string>, i: nat)
    requires i < |names| && !IsDot(names[i])
    ensures names[i] in WithoutDots(names)
    decreases i
  {
    if i > 0 {
      WithoutDotsKeeps(names[1..], i - 1);
    }
  }

  /** The same yields in the same order as the local walker, whatever that one has visited
      above; `visited`, `rank` and `depth` are only there to say so. */
  method SshGlobWalk(fs: FileSystem, raw: map<NodeId, seq<string>>, accepts: Accepts,
                     basePath: Path, at: NodeId, pats: seq<string>,
                     ghost visited: set<Key>, ghost rank: NodeId -> nat, ghost depth: nat)
    returns (out: seq<Path>)
    requires Tree(fs, rank) && Above(fs, rank, at, visited) && SameListings(fs, raw)
    requires WalkWithin(fs, accepts, at, pats, visited, depth).Some?
    ensures out == Prefixed(basePath, WalkWithin(fs, accepts, at, pats, visited, depth).value)
    decreases depth, |pats|
  {
    hide WalkWithin, Still, Complete, Prefixed, Entering, KindOf, Owed, Tree, Above, SameListings;
    out := [];
    if |pats| == 0 {
      WalkNothing(fs, accepts, basePath, at, visited, depth);
      return;
    }
    var remaining := pats[1..];
    ghost var total := Yields(fs, accepts, basePath, at, pats, visited, depth);
    WalkParts(fs, accepts, basePath, at, pats, visited, depth);
    if pats[0] == "**" {
      if |remaining| > 0 {
        out := SshGlobWalk(fs, raw, accepts, basePath, at, remaining, visited, rank, depth);
      } else {
        out := [basePath];
      }
    }
    RawListing(fs, raw, at);
    if at !in raw {
      return;
    }
    var entries := raw[at];
    assert entries[0..] == entries;
    Begin(out, Still(fs, accepts, basePath, at, WithoutDots(entries), pats, visited, depth));
    for i: nat := 0 to |entries|
      invariant Complete(fs, accepts, at, WithoutDots(entries[i..]), pats, visited, depth)
      invariant Owed(out, Still(fs, accepts, basePath, at, WithoutDots(entries[i..]), pats,
                                visited, depth), total)
    {
      WithoutDotsTail(entries, i);
      if IsDot(entries[i]) {
        assert [] + WithoutDots(entries[i + 1..]) == WithoutDots(entries[i + 1..]);
        continue;
      }
      var name := entries[i];
      var fullPath := basePath + [name];
      WithoutDotsKeeps(entries, i);
      TreeKind(fs, rank, at, name, visited);
      TargetExists(fs, rank, at, name);
      ghost var names := WithoutDots(entries[i..]);
      assert names[0..] == names && names[1..] == WithoutDots(entries[i + 1..]);
      EntryStep(fs, accepts, basePath, at, names, 0, pats, visited, depth);
      Pay(out, EntryYield(fs, accepts, basePath, at, name, pats, visited, depth),
          Still(fs, accepts, basePath, at, names[1..], pats, visited, depth), total);
      var id := fs[at].targets[name];
      if pats[0] == "**" {
        if IsDir(fs, id) {
          var below := SshGlobWalk(fs, raw, accepts, fullPath, id, pats,
                                   Entering(fs, id, visited), rank, depth - 1);
          out := out + below;
        } else if |remaining| == 0 {
          out := out + [fullPath];
        }
      } else {
        if !accepts(pats[0], name) {
          continue;
        }
        if |remaining| == 0 {
          out := out + [fullPath];
        } else if IsDir(fs, id) {
          var below := SshGlobWalk(fs, raw, accepts, fullPath, id, remaining,
                                   Entering(fs, id, visited), rank, depth - 1);
          out := out + below;
        }
      }
    }
    assert entries[|entries|..] == [];
    NoEntries(fs, accepts, basePath, at, pats, visited, depth);
    Settled(out, total);
  }

  /** The SFTP walker on a directory tree, from any starting point: the local walker's list. */
  method SshGlob(fs: FileSystem, raw: map<NodeId, seq<string>>, accepts: Accepts,
                 basePath: Path, at: NodeId, pats: seq<string>, ghost rank: NodeId -> nat)
    returns (out: seq<Path>)
    requires Tree(fs, rank) && SameListings(fs, raw)
    ensures out == Prefixed(basePath, Walk(fs, accepts, at, pats, RootVisited(fs, at)))
  {
    TreeIsKeyed(fs, rank);
    RootIsAbove(fs, rank, at);
    hide Tree, Above, SameListings, Walk, WalkWithin;
    ghost var visited := RootVisited(fs, at);
    KeyedWalkEnds(fs, accepts, at, pats, visited);
    ghost var depth: nat :| WalkWithin(fs, accepts, at, pats, visited, depth)
                         == Some(Walk(fs, accepts, at, pats, visited));
    out := SshGlobWalk(fs, raw, accepts, basePath, at, pats, visited, rank, depth);
  }

  lemma TreeIsKeyed(fs: FileSystem, rank: NodeId -> nat)
    requires Tree(fs, rank)
    ensures Keyed(fs)
  {}

  lemma RawListing(fs: FileSystem, raw: map<NodeId, seq<string>>, d: NodeId)
    requires SameListings(fs, raw)
    ensures d in raw <==> Readable(fs, d).Some?
    ensures d in raw ==> WithoutDots(raw[d]) == Readable(fs, d).value
  {}

  lemma NoEntries(fs: FileSystem, accepts: Accepts, basePath: Path, at: NodeId,
                  pats: seq<string>, visited: set<Key>, depth: nat)
    requires IsDir(fs, at) && pats != []
    ensures Complete(fs, accepts, at, WithoutDots([]), pats, visited, depth)
    ensures Still(fs, accepts, basePath, at, WithoutDots([]), pats, visited, depth) == []
  {}
}
