/** When a glob walk ends, on any directory graph: with the cycle check, without it where there are
    no inode numbers, and with a mixture of both (packages/kaos/src/local.ts). */
module GlobEnds {
  import opened Wrappers
  import opened GlobWalk

  // ---- The walk, cut off at a depth ---------------------------------------------------------

  function Both(a: Option<seq<Path>>, b: Option<seq<Path>>): Option<seq<Path>> {
    if a.None? || b.None? then None else Some(a.value + b.value)
  }

  function UnderAll(name: string, paths: Option<seq<Path>>): Option<seq<Path>> {
    if paths.None? then None else Some(Under(name, paths.value))
  }

  /** What the walk yields if it enters directories at most `depth` levels down, and None if it
      would go on. */
  function WalkWithin(fs: FileSystem, accepts: Accepts, at: NodeId, pats: seq<string>,
                      visited: set<Key>, depth: nat): Option<seq<Path>>
    decreases depth, |pats|, 2, 0
  {
    if pats == [] then Some([])
    else
      Both(if !IsStar(pats) then Some([])
           else if |pats| > 1 then WalkWithin(fs, accepts, at, pats[1..], visited, depth)
           else Some([[]]),
           match Readable(fs, at)
           case None => Some([])
           case Some(names) => EntriesWithin(fs, accepts, at, names, pats, visited, depth))
  }

  function EntriesWithin(fs: FileSystem, accepts: Accepts, d: NodeId, names: seq<string>,
                         pats: seq<string>, visited: set<Key>, depth: nat): Option<seq<Path>>
    requires IsDir(fs, d) && pats != []
    decreases depth, |pats|, 1, |names|
  {
    if names == [] then Some([])
    else Both(EntryWithin(fs, accepts, d, names[0], pats, visited, depth),
              EntriesWithin(fs, accepts, d, names[1..], pats, visited, depth))
  }

  function EntryWithin(fs: FileSystem, accepts: Accepts, d: NodeId, name: string,
                       pats: seq<string>, visited: set<Key>, depth: nat): Option<seq<Path>>
    requires IsDir(fs, d) && pats != []
    decreases depth, |pats|, 0, 0
  {
    if IsStar(pats) then
      match KindOf(fs, d, name, visited)
      case FreshDir(id) =>
        if depth == 0 then None
        else UnderAll(name, WalkWithin(fs, accepts, id, pats, Entering(fs, id, visited),
                                       depth - 1))
      case NonDir => Some(if |pats| == 1 then [[name]] else [])
      case _ => Some([])
    else if !accepts(pats[0], name) then Some([])
    else if |pats| == 1 then Some([[name]])
    else
      match KindOf(fs, d, name, visited)
      case FreshDir(id) =>
        if depth == 0 then None
        else UnderAll(name, WalkWithin(fs, accepts, id, pats[1..], Entering(fs, id, visited),
                                       depth - 1))
      case _ => Some([])
  }

  ghost predicate Ends(fs: FileSystem, accepts: Accepts, at: NodeId, pats: seq<string>,
                       visited: set<Key>)
  {
    exists depth: nat :: WalkWithin(fs, accepts, at, pats, visited, depth).Some?
  }

  // ---- The depth does not matter ------------------------------------------------------------

  lemma {:induction false} SameDeeper(fs: FileSystem, accepts: Accepts, at: NodeId,
                                      pats: seq<string>, visited: set<Key>, depth: nat,
                                      deeper: nat)
    requires depth <= deeper && WalkWithin(fs, accepts, at, pats, visited, depth).Some?
    ensures WalkWithin(fs, accepts, at, pats, visited, deeper)
         == WalkWithin(fs, accepts, at, pats, visited, depth)
    decreases depth, |pats|, 2, 0
  {
    hide EntriesWithin;
    if pats != [] {
      if IsStar(pats) && |pats| > 1 {
        SameDeeper(fs, accepts, at, pats[1..], visited, depth, deeper);
      }
      if Readable(fs, at).Some? {
        SameEntries(fs, accepts, at, Readable(fs, at).value, pats, visited, depth, deeper);
      }
    }
  }

  lemma {:induction false} SameEntries(fs: FileSystem, accepts: Accepts, d: NodeId,
                                       names: seq<string>, pats: seq<string>, visited: set<Key>,
                                       depth: nat, deeper: nat)
    requires IsDir(fs, d) && pats != [] && depth <= deeper
    requires EntriesWithin(fs, accepts, d, names, pats, visited, depth).Some?
    ensures EntriesWithin(fs, accepts, d, names, pats, visited, deeper)
         == EntriesWithin(fs, accepts, d, names, pats, visited, depth)
    decreases depth, |pats|, 1, |names|
  {
    hide EntryWithin;
    if names != [] {
      SameEntry(fs, accepts, d, names[0], pats, visited, depth, deeper);
      SameEntries(fs, accepts, d, names[1..], pats, visited, depth, deeper);
    }
  }

  lemma {:induction false} SameEntry(fs: FileSystem, accepts: Accepts, d: NodeId, name: string,
                                     pats: seq<string>, visited: set<Key>, depth: nat,
                                     deeper: nat)
    requires IsDir(fs, d) && pats != [] && depth <= deeper
    requires EntryWithin(fs, accepts, d, name, pats, visited, depth).Some?
    ensures EntryWithin(fs, accepts, d, name, pats, visited, deeper)
         == EntryWithin(fs, accepts, d, name, pats, visited, depth)
    decreases depth, |pats|, 0, 0
  {
    hide WalkWithin;
    var kind := KindOf(fs, d, name, visited);
    if kind.FreshDir? && depth > 0 {
      var next := Entering(fs, kind.id, visited);
      if IsStar(pats) {
        SameDeeper(fs, accepts, kind.id, pats, next, depth - 1, deeper - 1);
      } else if accepts(pats[0], name) && |pats| > 1 {
        SameDeeper(fs, accepts, kind.id, pats[1..], next, depth - 1, deeper - 1);
      }
    }
  }

  // ---- On keyed graphs it is the walk -------------------------------------------------------

  lemma {:induction false} WithinIsWalk(fs: FileSystem, accepts: Accepts, at: NodeId,
                                        pats: seq<string>, visited: set<Key>, depth: nat)
    requires Keyed(fs) && WalkWithin(fs, accepts, at, pats, visited, depth).Some?
    ensures WalkWithin(fs, accepts, at, pats, visited, depth).value
         == Walk(fs, accepts, at, pats, visited)
    decreases depth, |pats|, 2, 0
  {
    hide EntriesWithin, OfEntries;
    if pats != [] {
      if IsStar(pats) && |pats| > 1 {
        WithinIsWalk(fs, accepts, at, pats[1..], visited, depth);
      }
      if Readable(fs, at).Some? {
        EntriesAreEntries(fs, accepts, at, Readable(fs, at).value, pats, visited, depth);
      }
    }
  }

  lemma {:induction false} EntriesAreEntries(fs: FileSystem, accepts: Accepts, d: NodeId,
                                             names: seq<string>, pats: seq<string>,
                                             visited: set<Key>, depth: nat)
    requires Keyed(fs) && IsDir(fs, d) && pats != []
    requires EntriesWithin(fs, accepts, d, names, pats, visited, depth).Some?
    ensures EntriesWithin(fs, accepts, d, names, pats, visited, depth).value
         == OfEntries(fs, accepts, d, names, pats, visited)
    decreases depth, |pats|, 1, |names|
  {
    hide EntryWithin, OfEntry;
    if names != [] {
      EntryIsEntry(fs, accepts, d, names[0], pats, visited, depth);
      EntriesAreEntries(fs, accepts, d, names[1..], pats, visited, depth);
    }
  }

  lemma {:induction false} EntryIsEntry(fs: FileSystem, accepts: Accepts, d: NodeId, name: string,
                                        pats: seq<string>, visited: set<Key>, depth: nat)
    requires Keyed(fs) && IsDir(fs, d) && pats != []
    requires EntryWithin(fs, accepts, d, name, pats, visited, depth).Some?
    ensures EntryWithin(fs, accepts, d, name, pats, visited, depth).value
         == OfEntry(fs, accepts, d, name, pats, visited)
    decreases depth, |pats|, 0, 0
  {
    hide WalkWithin, Walk;
    var kind := KindOf(fs, d, name, visited);
    if kind.FreshDir? && depth > 0 {
      var next := Entering(fs, kind.id, visited);
      if IsStar(pats) {
        WithinIsWalk(fs, accepts, kind.id, pats, next, depth - 1);
      } else if accepts(pats[0], name) && |pats| > 1 {
        WithinIsWalk(fs, accepts, kind.id, pats[1..], next, depth - 1);
      }
    }
  }

  // ---- Directories without an identity ------------------------------------------------------

  /** A directory that can be read and that the cycle check cannot recognise. */
  predicate Bare(fs: FileSystem, d: NodeId) { Readable(fs, d).Some? && CycleKey(fs[d]).None? }

  predicate Links(fs: FileSystem, d: NodeId, name: string, e: NodeId)
    requires Readable(fs, d).Some?
  {
    name in Readable(fs, d).value && name in fs[d].targets && fs[d].targets[name] == e
    && e in fs
  }

  ghost predicate Falls(fs: FileSystem, rank: NodeId -> nat) {
    forall d, name, e :: Bare(fs, d) && Bare(fs, e) && Links(fs, d, name, e) ==> rank(e) < rank(d)
  }

  /** Some rank falls along every link between bare directories: they form no cycle. */
  ghost predicate NoBareCycle(fs: FileSystem) { exists rank: NodeId -> nat :: Falls(fs, rank) }

  // ---- Then every walk ends -----------------------------------------------------------------

  ghost predicate Bounds(fs: FileSystem, rank: NodeId -> nat, b: nat) {
    forall d :: d in fs ==> rank(d) < b
  }

  lemma {:induction false} RankBound(nodes: set<NodeId>, rank: NodeId -> nat) returns (b: nat)
    ensures forall d :: d in nodes ==> rank(d) < b
    decreases nodes
  {
    if nodes == {} {
      b := 0;
    } else {
      var d :| d in nodes;
      b := RankBound(nodes - {d}, rank);
      b := if rank(d) < b then b else rank(d) + 1;
    }
  }

  /** How far a walk can go on from `d` before it has to use up an identity. */
  function Height(fs: FileSystem, rank: NodeId -> nat, b: nat, d: NodeId): nat {
    if Readable(fs, d).None? then 0 else if CycleKey(fs[d]).None? then rank(d) + 1 else b + 1
  }

  ghost function Measure(fs: FileSystem, rank: NodeId -> nat, b: nat, d: NodeId,
                         visited: set<Key>): nat
  {
    Times(Unvisited(fs, visited), b + 2) + Height(fs, rank, b, d)
  }

  function Times(x: nat, n: nat): nat { x * n }

  lemma DescentDrops(fs: FileSystem, rank: NodeId -> nat, b: nat, d: NodeId, name: string,
                     visited: set<Key>)
    requires Falls(fs, rank) && Bounds(fs, rank, b)
    requires Readable(fs, d).Some? && name in Readable(fs, d).value
    requires KindOf(fs, d, name, visited).FreshDir?
    ensures var id := KindOf(fs, d, name, visited).id;
            Measure(fs, rank, b, id, Entering(fs, id, visited)) < Measure(fs, rank, b, d, visited)
  {
    var id := KindOf(fs, d, name, visited).id;
    assert Links(fs, d, name, id);
    assert Height(fs, rank, b, id) <= b + 1;
    if CycleKey(fs[id]).Some? {
      EnteringShrinks(fs, id, visited);
      hide Unvisited, Height, Times;
      LessTimes(Unvisited(fs, Entering(fs, id, visited)), Unvisited(fs, visited), b + 2);
    }
  }

  lemma LessTimes(x: nat, y: nat, n: nat)
    requires x < y
    ensures Times(x, n) + n <= Times(y, n)
  {
    assert (x + 1) * n <= y * n;
  }

  lemma {:induction false} WalkFits(fs: FileSystem, accepts: Accepts, rank: NodeId -> nat, b: nat,
                                    at: NodeId, pats: seq<string>, visited: set<Key>, depth: nat)
    requires Falls(fs, rank) && Bounds(fs, rank, b) && Measure(fs, rank, b, at, visited) <= depth
    ensures WalkWithin(fs, accepts, at, pats, visited, depth).Some?
    decreases depth, |pats|, 2, 0
  {
    hide Falls, Bounds, Measure, EntriesWithin;
    if pats != [] {
      if IsStar(pats) && |pats| > 1 {
        WalkFits(fs, accepts, rank, b, at, pats[1..], visited, depth);
      }
      if Readable(fs, at).Some? {
        EntriesFit(fs, accepts, rank, b, at, Readable(fs, at).value, pats, visited, depth);
      }
    }
  }

  lemma {:induction false} EntriesFit(fs: FileSystem, accepts: Accepts, rank: NodeId -> nat,
                                      b: nat, d: NodeId, names: seq<string>, pats: seq<string>,
                                      visited: set<Key>, depth: nat)
    requires Falls(fs, rank) && Bounds(fs, rank, b) && Measure(fs, rank, b, d, visited) <= depth
    requires Readable(fs, d).Some? && pats != []
    requires forall n :: n in names ==> n in Readable(fs, d).value
    ensures EntriesWithin(fs, accepts, d, names, pats, visited, depth).Some?
    decreases depth, |pats|, 1, |names|
  {
    hide Falls, Bounds, Measure, EntryWithin;
    if names != [] {
      EntryFits(fs, accepts, rank, b, d, names[0], pats, visited, depth);
      EntriesFit(fs, accepts, rank, b, d, names[1..], pats, visited, depth);
    }
  }

  lemma {:induction false} EntryFits(fs: FileSystem, accepts: Accepts, rank: NodeId -> nat, b: nat,
                                     d: NodeId, name: string, pats: seq<string>,
                                     visited: set<Key>, depth: nat)
    requires Falls(fs, rank) && Bounds(fs, rank, b) && Measure(fs, rank, b, d, visited) <= depth
    requires Readable(fs, d).Some? && pats != [] && name in Readable(fs, d).value
    ensures EntryWithin(fs, accepts, d, name, pats, visited, depth).Some?
    decreases depth, |pats|, 0, 0
  {
    hide Falls, Bounds, Measure, WalkWithin;
    var kind := KindOf(fs, d, name, visited);
    if kind.FreshDir? {
      var next := Entering(fs, kind.id, visited);
      DescentDrops(fs, rank, b, d, name, visited);
      WalkFits(fs, accepts, rank, b, kind.id, pats, next, depth - 1);
      WalkFits(fs, accepts, rank, b, kind.id, pats[1..], next, depth - 1);
    }
  }

  /** Whatever has been visited, and with identities or without. */
  lemma EndsWithoutBareCycle(fs: FileSystem, accepts: Accepts, at: NodeId, pats: seq<string>,
                             visited: set<Key>)
    requires NoBareCycle(fs)
    ensures Ends(fs, accepts, at, pats, visited)
  {
    var rank: NodeId -> nat :| Falls(fs, rank);
    var b := RankBound(fs.Keys, rank);
    WalkFits(fs, accepts, rank, b, at, pats, visited, Measure(fs, rank, b, at, visited));
  }

  // ---- Otherwise some walk does not end -----------------------------------------------------

  /** The walk for `**` from a bare directory, where nothing is ever recorded as visited. */
  function StarWithin(fs: FileSystem, accepts: Accepts, d: NodeId, depth: nat): Option<seq<Path>> {
    WalkWithin(fs, accepts, d, ["**"], {}, depth)
  }

  lemma {:induction false} EntriesNeedEach(fs: FileSystem, accepts: Accepts, d: NodeId,
                                           names: seq<string>, name: string, pats: seq<string>,
                                           visited: set<Key>, depth: nat)
    requires IsDir(fs, d) && pats != [] && name in names
    requires EntriesWithin(fs, accepts, d, names, pats, visited, depth).Some?
    ensures EntryWithin(fs, accepts, d, name, pats, visited, depth).Some?
    decreases |names|
  {
    hide EntryWithin;
    if name != names[0] {
      EntriesNeedEach(fs, accepts, d, names[1..], name, pats, visited, depth);
    }
  }

  /** A walk that ends leaves less depth for a bare directory below. */
  lemma StarNeedsBelow(fs: FileSystem, accepts: Accepts, d: NodeId, name: string, e: NodeId,
                       depth: nat)
    requires Bare(fs, d) && Bare(fs, e) && Links(fs, d, name, e)
    requires StarWithin(fs, accepts, d, depth).Some?
    ensures depth > 0 && StarWithin(fs, accepts, e, depth - 1).Some?
  {
    hide WalkWithin;
    StarNeedsEntries(fs, accepts, d, depth);
    EntriesNeedEach(fs, accepts, d, Readable(fs, d).value, name, ["**"], {}, depth);
    assert KindOf(fs, d, name, {}) == FreshDir(e) && Entering(fs, e, {}) == {};
  }

  lemma StarNeedsEntries(fs: FileSystem, accepts: Accepts, d: NodeId, depth: nat)
    requires Readable(fs, d).Some? && StarWithin(fs, accepts, d, depth).Some?
    ensures EntriesWithin(fs, accepts, d, Readable(fs, d).value, ["**"], {}, depth).Some?
  {}

  /** A bare directory that contains itself: at every depth the walk would go on. */
  lemma {:induction false} NoIdentityNoEnd(fs: FileSystem, accepts: Accepts, d: NodeId,
                                           name: string, depth: nat)
    requires Bare(fs, d) && Links(fs, d, name, d)
    ensures WalkWithin(fs, accepts, d, ["**"], RootVisited(fs, d), depth).None?
    decreases depth
  {
    hide WalkWithin;
    if StarWithin(fs, accepts, d, depth).Some? {
      StarNeedsBelow(fs, accepts, d, name, d, depth);
      NoIdentityNoEnd(fs, accepts, d, name, depth - 1);
    }
  }

  lemma {:induction false} LeastExists(fs: FileSystem, accepts: Accepts, d: NodeId, depth: nat)
    requires StarWithin(fs, accepts, d, depth).Some?
    ensures exists n: nat :: StarWithin(fs, accepts, d, n).Some?
                             && forall m: nat :: m < n ==> StarWithin(fs, accepts, d, m).None?
    decreases depth
  {
    if m: nat :| m < depth && StarWithin(fs, accepts, d, m).Some? {
      LeastExists(fs, accepts, d, m);
    }
  }

  ghost function Least(fs: FileSystem, accepts: Accepts, d: NodeId): (n: nat)
    requires exists depth: nat :: StarWithin(fs, accepts, d, depth).Some?
    ensures StarWithin(fs, accepts, d, n).Some?
    ensures forall m: nat :: m < n ==> StarWithin(fs, accepts, d, m).None?
  {
    var depth: nat :| StarWithin(fs, accepts, d, depth).Some?;
    LeastExists(fs, accepts, d, depth);
    var n: nat :| StarWithin(fs, accepts, d, n).Some?
                  && forall m: nat :: m < n ==> StarWithin(fs, accepts, d, m).None?;
    n
  }

  ghost function LeastOrZero(fs: FileSystem, accepts: Accepts, d: NodeId): nat {
    if exists depth: nat :: StarWithin(fs, accepts, d, depth).Some? then Least(fs, accepts, d)
    else 0
  }

  lemma RankFromEnds(fs: FileSystem, accepts: Accepts)
    requires forall d :: Bare(fs, d) ==> Ends(fs, accepts, d, ["**"], RootVisited(fs, d))
    ensures NoBareCycle(fs)
  {
    hide WalkWithin;
    var rank: NodeId -> nat := (d: NodeId) => LeastOrZero(fs, accepts, d);
    forall d, name, e | Bare(fs, d) && Bare(fs, e) && Links(fs, d, name, e)
      ensures rank(e) < rank(d)
    {
      var x: nat :| WalkWithin(fs, accepts, d, ["**"], RootVisited(fs, d), x).Some?;
      assert StarWithin(fs, accepts, d, x).Some?;
      StarNeedsBelow(fs, accepts, d, name, e, Least(fs, accepts, d));
      assert Least(fs, accepts, e) <= Least(fs, accepts, d) - 1;
    }
    assert Falls(fs, rank);
  }

  /** Every glob ends, from every starting point and for every pattern, if and only if the readable
      directories without an identity form no cycle. */
  lemma GlobEndsIff(fs: FileSystem, accepts: Accepts)
    ensures (forall at, pats :: Ends(fs, accepts, at, pats, RootVisited(fs, at)))
       <==> NoBareCycle(fs)
  {
    if NoBareCycle(fs) {
      forall at, pats
        ensures Ends(fs, accepts, at, pats, RootVisited(fs, at))
      {
        EndsWithoutBareCycle(fs, accepts, at, pats, RootVisited(fs, at));
      }
    } else if forall at, pats :: Ends(fs, accepts, at, pats, RootVisited(fs, at)) {
      RankFromEnds(fs, accepts);
    }
  }

  /** With identities throughout there is no bare directory at all, so glob ends and yields what
      the walk says. */
  lemma KeyedWalkEnds(fs: FileSystem, accepts: Accepts, at: NodeId, pats: seq<string>,
                      visited: set<Key>)
    requires Keyed(fs)
    ensures exists depth: nat :: WalkWithin(fs, accepts, at, pats, visited, depth)
                              == Some(Walk(fs, accepts, at, pats, visited))
  {
    assert Falls(fs, (d: NodeId) => 0);
    EndsWithoutBareCycle(fs, accepts, at, pats, visited);
    var depth: nat :| WalkWithin(fs, accepts, at, pats, visited, depth).Some?;
    WithinIsWalk(fs, accepts, at, pats, visited, depth);
  }
}
