/** The order in which a glob yields: that of the listings, a directory before what is below it. */
module GlobOrder {
  import opened Wrappers
  import opened GlobWalk
  import opened GlobMeaning

  ghost predicate Earlier(names: seq<string>, a: string, b: string) {
    exists i, j :: 0 <= i < j < |names| && names[i] == a && names[j] == b
  }

  /** `p` comes before `q`: it leads to a directory that `q` goes on from, or the two part in a
      directory that lists the next name of `p` earlier. */
  ghost predicate Before(fs: FileSystem, at: NodeId, p: Path, q: Path)
    decreases |p|
  {
    && q != []
    && (p == []
        || (Readable(fs, at).Some? && p[0] != q[0] && Earlier(Readable(fs, at).value, p[0], q[0]))
        || (p[0] == q[0] && IsDir(fs, at) && p[0] in fs[at].targets
            && Before(fs, fs[at].targets[p[0]], p[1..], q[1..])))
  }

  ghost predicate InOrder(fs: FileSystem, at: NodeId, paths: seq<Path>) {
    forall i, j :: 0 <= i < j < |paths| ==> Before(fs, at, paths[i], paths[j])
  }

  /** Every path starts with one of these names. */
  ghost predicate StartIn(paths: seq<Path>, names: seq<string>) {
    forall i :: 0 <= i < |paths| ==> paths[i] != [] && paths[i][0] in names
  }

  /** `**` in the last place only, if at all. */
  predicate StarLast(pats: seq<string>) {
    forall i :: 0 <= i < |pats| - 1 ==> pats[i] != "**"
  }

  lemma UnderInOrder(fs: FileSystem, at: NodeId, name: string, paths: seq<Path>)
    requires IsDir(fs, at) && name in fs[at].targets
    requires InOrder(fs, fs[at].targets[name], paths)
    ensures InOrder(fs, at, Under(name, paths)) && StartIn(Under(name, paths), [name])
  {
    var under := Under(name, paths);
    forall i, j | 0 <= i < j < |under|
      ensures Before(fs, at, under[i], under[j])
    {
      assert under[i][1..] == paths[i] && under[j][1..] == paths[j];
    }
  }

  lemma OneInOrder(fs: FileSystem, at: NodeId, name: string)
    ensures InOrder(fs, at, [[name]]) && StartIn([[name]], [name])
    ensures InOrder(fs, at, []) && StartIn([], [name])
  {}

  /** What comes from an entry, and then what comes from the entries after it. */
  lemma JoinInOrder(fs: FileSystem, at: NodeId, k: nat, a: seq<Path>, b: seq<Path>)
    requires Readable(fs, at).Some? && k < |Readable(fs, at).value|
    requires Distinct(Readable(fs, at).value)
    requires InOrder(fs, at, a) && StartIn(a, [Readable(fs, at).value[k]])
    requires InOrder(fs, at, b) && StartIn(b, Readable(fs, at).value[k + 1..])
    ensures InOrder(fs, at, a + b) && StartIn(a + b, Readable(fs, at).value[k..])
  {
    var names, all := Readable(fs, at).value, a + b;
    var later := names[k + 1..];
    forall i, j | 0 <= i < j < |all|
      ensures Before(fs, at, all[i], all[j])
    {
      if i < |a| <= j {
        assert all[i] == a[i] && all[j] == b[j - |a|];
        var m :| 0 <= m < |later| && later[m] == all[j][0];
        assert names[k] == all[i][0] && names[k + 1 + m] == all[j][0];
        hide Before;
        PartHere(fs, at, all[i], all[j], k, k + 1 + m);
      }
    }
    forall i | 0 <= i < |all|
      ensures all[i] != [] && all[i][0] in names[k..]
    {
      if i < |a| {
        assert all[i] == a[i] && names[k..][0] == names[k];
      } else {
        assert all[i] == b[i - |a|];
        var m :| 0 <= m < |later| && later[m] == all[i][0];
        assert names[k..][m + 1] == later[m];
      }
    }
  }

  lemma PartHere(fs: FileSystem, at: NodeId, p: Path, q: Path, i: nat, j: nat)
    requires Readable(fs, at).Some? && p != [] && q != []
    requires i < j < |Readable(fs, at).value| && Distinct(Readable(fs, at).value)
    requires Readable(fs, at).value[i] == p[0] && Readable(fs, at).value[j] == q[0]
    ensures Before(fs, at, p, q)
  {}

  lemma {:induction false} WalkInOrder(fs: FileSystem, accepts: Accepts, at: NodeId,
                                       pats: seq<string>, visited: set<Key>)
    requires Keyed(fs) && ProperListings(fs) && StarLast(pats)
    ensures InOrder(fs, at, Walk(fs, accepts, at, pats, visited))
    decreases Unvisited(fs, visited), |pats|, 2, 0
  {
    hide OfEntries, Unvisited, Before;
    if pats != [] && Readable(fs, at).Some? {
      var names := Readable(fs, at).value;
      assert names[0..] == names;
      EntriesInOrder(fs, accepts, at, 0, pats, visited);
      var below := OfEntries(fs, accepts, at, names, pats, visited);
      if IsStar(pats) {
        assert |pats| == 1;
        SelfFirst(fs, at, below, names);
      } else {
        assert [] + below == below;
      }
    }
  }

  /** The directory itself before what is in it. */
  lemma SelfFirst(fs: FileSystem, at: NodeId, below: seq<Path>, names: seq<string>)
    requires InOrder(fs, at, below) && StartIn(below, names)
    ensures InOrder(fs, at, [[]] + below)
  {
    var all := [[]] + below;
    forall i, j | 0 <= i < j < |all|
      ensures Before(fs, at, all[i], all[j])
    {
      assert all[j] == below[j - 1];
      assert i > 0 ==> all[i] == below[i - 1];
    }
  }

  lemma {:induction false} EntriesInOrder(fs: FileSystem, accepts: Accepts, at: NodeId, k: nat,
                                          pats: seq<string>, visited: set<Key>)
    requires Keyed(fs) && ProperListings(fs) && StarLast(pats) && pats != []
    requires Readable(fs, at).Some? && k <= |Readable(fs, at).value|
    ensures var names := Readable(fs, at).value[k..];
            && InOrder(fs, at, OfEntries(fs, accepts, at, names, pats, visited))
            && StartIn(OfEntries(fs, accepts, at, names, pats, visited), names)
    decreases Unvisited(fs, visited), |pats|, 1, |Readable(fs, at).value| - k
  {
    hide OfEntry, Unvisited, Before;
    var names := Readable(fs, at).value;
    if k < |names| {
      assert names[k..][0] == names[k] && names[k..][1..] == names[k + 1..];
      EntryInOrder(fs, accepts, at, names[k], pats, visited);
      EntriesInOrder(fs, accepts, at, k + 1, pats, visited);
      JoinInOrder(fs, at, k, OfEntry(fs, accepts, at, names[k], pats, visited),
                  OfEntries(fs, accepts, at, names[k + 1..], pats, visited));
    }
  }

  lemma {:induction false} EntryInOrder(fs: FileSystem, accepts: Accepts, at: NodeId, name: string,
                                        pats: seq<string>, visited: set<Key>)
    requires Keyed(fs) && ProperListings(fs) && StarLast(pats) && pats != [] && IsDir(fs, at)
    ensures InOrder(fs, at, OfEntry(fs, accepts, at, name, pats, visited))
    ensures StartIn(OfEntry(fs, accepts, at, name, pats, visited), [name])
    decreases Unvisited(fs, visited), |pats|, 0, 0
  {
    hide Walk, Unvisited, Before, Entering;
    OneInOrder(fs, at, name);
    var kind := KindOf(fs, at, name, visited);
    if kind.FreshDir? {
      var entered := Entering(fs, kind.id, visited);
      DescentShrinks(fs, at, name, visited);
      var deeper := if IsStar(pats) then pats else pats[1..];
      WalkInOrder(fs, accepts, kind.id, deeper, entered);
      UnderInOrder(fs, at, name, Walk(fs, accepts, kind.id, deeper, entered));
    }
  }

  /** With `**` in the last place only, if at all, nothing is yielded twice, and everything in the order
      of the listings. */
  lemma GlobInOrder(fs: FileSystem, accepts: Accepts, at: NodeId, pats: seq<string>)
    requires Keyed(fs) && ProperListings(fs) && StarLast(pats)
    ensures InOrder(fs, at, Walk(fs, accepts, at, pats, RootVisited(fs, at)))
    ensures Distinct(Walk(fs, accepts, at, pats, RootVisited(fs, at)))
  {
    hide Walk;
    WalkInOrder(fs, accepts, at, pats, RootVisited(fs, at));
    var paths := Walk(fs, accepts, at, pats, RootVisited(fs, at));
    forall i, j | 0 <= i < j < |paths|
      ensures paths[i] != paths[j]
    {
      NotBeforeItself(fs, at, paths[i]);
    }
  }

  lemma {:induction false} NotBeforeItself(fs: FileSystem, at: NodeId, p: Path)
    ensures !Before(fs, at, p, p)
    decreases |p|
  {
    if p != [] && IsDir(fs, at) && p[0] in fs[at].targets {
      NotBeforeItself(fs, fs[at].targets[p[0]], p[1..]);
    }
  }
}
