/** The generator of packages/kaos/src/local.ts with its loops, on any directory graph: whatever walk
    ends, with identities or without, it yields what `WalkWithin` says. */
module GlobLoops {
  import opened Wrappers
  import opened GlobWalk
  import opened GlobEnds
  import opened GlobMeaning
  import opened GlobRoutes

  // ---- Full paths ---------------------------------------------------------------------------

  function Prefixed(base: Path, paths: seq<Path>): (r: seq<Path>)
    ensures |r| == |paths|
  {
    seq(|paths|, i requires 0 <= i < |paths| => base + paths[i])
  }

  lemma PrefixedUnder(base: Path, name: string, paths: seq<Path>)
    ensures Prefixed(base, Under(name, paths)) == Prefixed(base + [name], paths)
  {
    forall i | 0 <= i < |paths|
      ensures base + ([name] + paths[i]) == base + [name] + paths[i]
    {}
  }

  lemma PrefixedConcat(base: Path, a: seq<Path>, b: seq<Path>)
    ensures Prefixed(base, a + b) == Prefixed(base, a) + Prefixed(base, b)
  {}

  lemma PrefixedIn(base: Path, paths: seq<Path>, p: Path)
    ensures base + p in Prefixed(base, paths) <==> p in paths
  {
    var out := Prefixed(base, paths);
    if i :| 0 <= i < |paths| && paths[i] == p {
      assert out[i] == base + p;
    }
    if i :| 0 <= i < |out| && out[i] == base + p {
      assert (base + paths[i])[|base|..] == paths[i] && (base + p)[|base|..] == p;
    }
  }

  lemma YieldOne(basePath: Path, name: string)
    ensures Prefixed(basePath, [[name]]) == [basePath + [name]] && Prefixed(basePath, []) == []
    ensures Prefixed(basePath, [[]]) == [basePath]
  {
    assert basePath + [] == basePath;
  }

  // ---- The parts of a walk that ends --------------------------------------------------------

  /** What a walk that is not cut off yields, with full paths. */
  function Yields(fs: FileSystem, accepts: Accepts, basePath: Path, at: NodeId, pats: seq<string>,
                  visited: set<Key>, depth: nat): seq<Path>
    requires WalkWithin(fs, accepts, at, pats, visited, depth).Some?
  {
    Prefixed(basePath, WalkWithin(fs, accepts, at, pats, visited, depth).value)
  }

  /** No entry of these is cut off. */
  predicate Complete(fs: FileSystem, accepts: Accepts, at: NodeId, names: seq<string>,
                     pats: seq<string>, visited: set<Key>, depth: nat)
    requires IsDir(fs, at) && pats != []
  {
    EntriesWithin(fs, accepts, at, names, pats, visited, depth).Some?
  }

  /** What is still to be yielded once the entries before `names` are done. */
  function Still(fs: FileSystem, accepts: Accepts, basePath: Path, at: NodeId,
                 names: seq<string>, pats: seq<string>, visited: set<Key>, depth: nat): seq<Path>
    requires IsDir(fs, at) && pats != []
    requires Complete(fs, accepts, at, names, pats, visited, depth)
  {
    Prefixed(basePath, EntriesWithin(fs, accepts, at, names, pats, visited, depth).value)
  }

  /** The directory that an entry makes the walk descend into. */
  function Descends(fs: FileSystem, accepts: Accepts, at: NodeId, entry: string,
                    pats: seq<string>, visited: set<Key>): Option<NodeId>
    requires IsDir(fs, at) && pats != []
  {
    var kind := KindOf(fs, at, entry, visited);
    if kind.FreshDir? && (IsStar(pats) || (accepts(pats[0], entry) && |pats| > 1))
    then Some(kind.id) else None
  }

  function Below(pats: seq<string>): seq<string>
    requires pats != []
  {
    if IsStar(pats) then pats else pats[1..]
  }

  /** What one entry contributes: a walk below it, the entry itself, or nothing. */
  function EntryYield(fs: FileSystem, accepts: Accepts, basePath: Path, at: NodeId,
                      entry: string, pats: seq<string>, visited: set<Key>, depth: nat): seq<Path>
    requires IsDir(fs, at) && pats != []
    requires Fits(fs, accepts, at, entry, pats, visited, depth)
  {
    match Descends(fs, accepts, at, entry, pats, visited)
    case Some(id) =>
      Yields(fs, accepts, basePath + [entry], id, Below(pats), Entering(fs, id, visited), depth - 1)
    case None =>
      if |pats| == 1 && (if IsStar(pats) then KindOf(fs, at, entry, visited).NonDir?
                         else accepts(pats[0], entry))
      then [basePath + [entry]] else []
  }

  /** The walk below the entry, if there is one, is not cut off. */
  predicate Fits(fs: FileSystem, accepts: Accepts, at: NodeId, entry: string, pats: seq<string>,
                 visited: set<Key>, depth: nat)
    requires IsDir(fs, at) && pats != []
  {
    match Descends(fs, accepts, at, entry, pats, visited)
    case Some(id) =>
      depth > 0
      && WalkWithin(fs, accepts, id, Below(pats), Entering(fs, id, visited), depth - 1).Some?
    case None => true
  }

  lemma EntryParts(fs: FileSystem, accepts: Accepts, basePath: Path, at: NodeId,
                   entry: string, pats: seq<string>, visited: set<Key>, depth: nat)
    requires IsDir(fs, at) && pats != []
    requires EntryWithin(fs, accepts, at, entry, pats, visited, depth).Some?
    ensures Fits(fs, accepts, at, entry, pats, visited, depth)
    ensures Prefixed(basePath, EntryWithin(fs, accepts, at, entry, pats, visited, depth).value)
         == EntryYield(fs, accepts, basePath, at, entry, pats, visited, depth)
  {
    hide WalkWithin, Prefixed, KindOf, Entering;
    YieldOne(basePath, entry);
    match Descends(fs, accepts, at, entry, pats, visited)
    case Some(id) =>
      PrefixedUnder(basePath, entry, WalkWithin(fs, accepts, id, Below(pats),
                                                Entering(fs, id, visited), depth - 1).value);
    case None =>
  }

  lemma EntryStep(fs: FileSystem, accepts: Accepts, basePath: Path, at: NodeId,
                  entries: seq<string>, i: nat, pats: seq<string>, visited: set<Key>, depth: nat)
    requires IsDir(fs, at) && pats != [] && i < |entries|
    requires Complete(fs, accepts, at, entries[i..], pats, visited, depth)
    ensures Fits(fs, accepts, at, entries[i], pats, visited, depth)
    ensures Complete(fs, accepts, at, entries[i + 1..], pats, visited, depth)
    ensures Still(fs, accepts, basePath, at, entries[i..], pats, visited, depth)
         == EntryYield(fs, accepts, basePath, at, entries[i], pats, visited, depth)
            + Still(fs, accepts, basePath, at, entries[i + 1..], pats, visited, depth)
  {
    hide EntryWithin, Fits, EntryYield, Prefixed;
    assert entries[i..][1..] == entries[i + 1..];
    EntryParts(fs, accepts, basePath, at, entries[i], pats, visited, depth);
    PrefixedConcat(basePath,
                   EntryWithin(fs, accepts, at, entries[i], pats, visited, depth).value,
                   EntriesWithin(fs, accepts, at, entries[i + 1..], pats, visited, depth).value);
  }

  lemma StillDone(fs: FileSystem, accepts: Accepts, basePath: Path, at: NodeId,
                  entries: seq<string>, pats: seq<string>, visited: set<Key>, depth: nat)
    requires IsDir(fs, at) && pats != []
    ensures Complete(fs, accepts, at, entries[|entries|..], pats, visited, depth)
    ensures Still(fs, accepts, basePath, at, entries[|entries|..], pats, visited, depth) == []
  {
    assert entries[|entries|..] == [];
  }

  /** What the walk yields before it looks at the entries. */
  function Head(fs: FileSystem, accepts: Accepts, basePath: Path, at: NodeId, pats: seq<string>,
                visited: set<Key>, depth: nat): seq<Path>
    requires pats != []
    requires IsStar(pats) && |pats| > 1 ==>
               WalkWithin(fs, accepts, at, pats[1..], visited, depth).Some?
  {
    if !IsStar(pats) then []
    else if |pats| > 1 then Yields(fs, accepts, basePath, at, pats[1..], visited, depth)
    else [basePath]
  }

  /** The head of a walk, and then its entries. */
  lemma WalkParts(fs: FileSystem, accepts: Accepts, basePath: Path, at: NodeId,
                  pats: seq<string>, visited: set<Key>, depth: nat)
    requires pats != [] && WalkWithin(fs, accepts, at, pats, visited, depth).Some?
    ensures IsStar(pats) && |pats| > 1 ==>
              WalkWithin(fs, accepts, at, pats[1..], visited, depth).Some?
    ensures Readable(fs, at).Some? ==>
              Complete(fs, accepts, at, Readable(fs, at).value, pats, visited, depth)
    ensures Yields(fs, accepts, basePath, at, pats, visited, depth)
         == Head(fs, accepts, basePath, at, pats, visited, depth)
            + match Readable(fs, at)
              case None => []
              case Some(names) => Still(fs, accepts, basePath, at, names, pats, visited, depth)
  {
    hide EntriesWithin, Prefixed;
    YieldOne(basePath, "");
    PrefixedConcat(basePath,
                   if !IsStar(pats) then []
                   else if |pats| > 1 then
                     WalkWithin(fs, accepts, at, pats[1..], visited, depth).value
                   else [[]],
                   match Readable(fs, at)
                   case None => []
                   case Some(names) =>
                     EntriesWithin(fs, accepts, at, names, pats, visited, depth).value);
  }

  lemma WalkNothing(fs: FileSystem, accepts: Accepts, basePath: Path, at: NodeId,
                    visited: set<Key>, depth: nat)
    ensures WalkWithin(fs, accepts, at, [], visited, depth).Some?
    ensures Yields(fs, accepts, basePath, at, [], visited, depth) == []
  {}

  /** `out` has been yielded, `rest` is still to come, `total` in all. */
  ghost predicate Owed(out: seq<Path>, rest: seq<Path>, total: seq<Path>) { out + rest == total }

  lemma Pay(out: seq<Path>, y: seq<Path>, rest: seq<Path>, total: seq<Path>)
    requires Owed(out, y + rest, total)
    ensures Owed(out + y, rest, total)
    ensures y == [] ==> Owed(out, rest, total)
  {
    assert out + y + rest == out + (y + rest);
    assert y == [] ==> y + rest == rest;
  }

  lemma Begin(head: seq<Path>, rest: seq<Path>)
    ensures Owed(head, rest, head + rest)
  {}

  lemma Settled(out: seq<Path>, total: seq<Path>)
    requires Owed(out, [], total)
    ensures out == total
  {}

  // ---- The walk with its loops --------------------------------------------------------------

  /** The generator, its yields collected in order. `basePath` names node `at`. The walk is any that
      ends; `depth` is there to say so. */
  method GlobWalkFrom(fs: FileSystem, accepts: Accepts, basePath: Path, at: NodeId,
                      pats: seq<string>, visited: set<Key>, ghost depth: nat)
    returns (out: seq<Path>)
    requires WalkWithin(fs, accepts, at, pats, visited, depth).Some?
    ensures out == Prefixed(basePath, WalkWithin(fs, accepts, at, pats, visited, depth).value)
    decreases depth, |pats|
  {
    hide WalkWithin, Still, Complete, Prefixed, Entering, CycleKey, KindOf, Owed;
    out := [];
    if |pats| == 0 {
      WalkNothing(fs, accepts, basePath, at, visited, depth);
      return;
    }
    var remaining := pats[1..];
    ghost var total := Yields(fs, accepts, basePath, at, pats, visited, depth);
    WalkParts(fs, accepts, basePath, at, pats, visited, depth);
    if pats[0] == "**" {
      if |remaining| > 0 {
        out := GlobWalkFrom(fs, accepts, basePath, at, remaining, visited, depth);
      } else {
        out := [basePath];
      }
      if Readable(fs, at).None? {
        return;
      }
      var entries := Readable(fs, at).value;
      assert entries[0..] == entries;
      Begin(out, Still(fs, accepts, basePath, at, entries, pats, visited, depth));
      for i: nat := 0 to |entries|
        invariant Complete(fs, accepts, at, entries[i..], pats, visited, depth)
        invariant Owed(out, Still(fs, accepts, basePath, at, entries[i..], pats, visited, depth),
                       total)
      {
        var entry := entries[i];
        var fullPath := basePath + [entry];
        EntryStep(fs, accepts, basePath, at, entries, i, pats, visited, depth);
        Pay(out, EntryYield(fs, accepts, basePath, at, entry, pats, visited, depth),
            Still(fs, accepts, basePath, at, entries[i + 1..], pats, visited, depth), total);
        match KindOf(fs, at, entry, visited) {
          case Missing =>
          case SeenDir =>
          case FreshDir(id) =>
            var below := GlobWalkFrom(fs, accepts, fullPath, id, pats, Entering(fs, id, visited),
                                      depth - 1);
            out := out + below;
          case NonDir =>
            if |remaining| == 0 {
              out := out + [fullPath];
            }
        }
      }
      StillDone(fs, accepts, basePath, at, entries, pats, visited, depth);
      Settled(out, total);
    } else {
      if Readable(fs, at).None? {
        return;
      }
      var entries := Readable(fs, at).value;
      assert entries[0..] == entries;
      Begin(out, Still(fs, accepts, basePath, at, entries, pats, visited, depth));
      for i: nat := 0 to |entries|
        invariant Complete(fs, accepts, at, entries[i..], pats, visited, depth)
        invariant Owed(out, Still(fs, accepts, basePath, at, entries[i..], pats, visited, depth),
                       total)
      {
        var entry := entries[i];
        var fullPath := basePath + [entry];
        EntryStep(fs, accepts, basePath, at, entries, i, pats, visited, depth);
        Pay(out, EntryYield(fs, accepts, basePath, at, entry, pats, visited, depth),
            Still(fs, accepts, basePath, at, entries[i + 1..], pats, visited, depth), total);
        if !accepts(pats[0], entry) {
          continue;
        }
        if |remaining| == 0 {
          out := out + [fullPath];
        } else {
          match KindOf(fs, at, entry, visited) {
            case FreshDir(id) =>
              var below := GlobWalkFrom(fs, accepts, fullPath, id, remaining,
                                        Entering(fs, id, visited), depth - 1);
              out := out + below;
            case _ =>
          }
        }
      }
      StillDone(fs, accepts, basePath, at, entries, pats, visited, depth);
      Settled(out, total);
    }
  }

  /** glob, from any starting point from which it ends: what every deep enough cut-off walk yields;
      with identities throughout, the walk, and so every path that is reached and no other. */
  method Glob(fs: FileSystem, accepts: Accepts, basePath: Path, at: NodeId, pats: seq<string>)
    returns (out: seq<Path>)
    requires Ends(fs, accepts, at, pats, RootVisited(fs, at))
    ensures forall depth: nat ::
              WalkWithin(fs, accepts, at, pats, RootVisited(fs, at), depth).Some? ==>
                out == Prefixed(basePath, WalkWithin(fs, accepts, at, pats, RootVisited(fs, at),
                                                     depth).value)
    ensures Keyed(fs) ==> out == Prefixed(basePath, Walk(fs, accepts, at, pats,
                                                         RootVisited(fs, at)))
    ensures Keyed(fs) && ProperListings(fs) ==>
              forall p: Path :: basePath + p in out <==> Reached(fs, accepts, at, pats, p)
  {
    hide WalkWithin, Walk, Prefixed, Reached, ProperListings;
    var visited := RootVisited(fs, at);
    ghost var least: nat :| WalkWithin(fs, accepts, at, pats, visited, least).Some?;
    out := GlobWalkFrom(fs, accepts, basePath, at, pats, visited, least);
    forall depth: nat | WalkWithin(fs, accepts, at, pats, visited, depth).Some?
      ensures WalkWithin(fs, accepts, at, pats, visited, depth)
           == WalkWithin(fs, accepts, at, pats, visited, least)
    {
      if depth <= least {
        SameDeeper(fs, accepts, at, pats, visited, depth, least);
      } else {
        SameDeeper(fs, accepts, at, pats, visited, least, depth);
      }
    }
    if Keyed(fs) {
      WithinIsWalk(fs, accepts, at, pats, visited, least);
      if ProperListings(fs) {
        forall p: Path
          ensures basePath + p in out <==> Reached(fs, accepts, at, pats, p)
        {
          PrefixedIn(basePath, Walk(fs, accepts, at, pats, visited), p);
          WalkReaches(fs, accepts, at, pats, p);
        }
      }
    }
  }
}
