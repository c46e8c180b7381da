/** Which paths a glob yields on a graph with links and cycles, said of the path alone: it exists, it
    matches, and no directory is entered twice on the way, the starting directory included. */
module GlobRoutes {
  import opened Wrappers
  import opened GlobWalk
  import opened GlobMeaning

  predicate Lists(fs: FileSystem, d: NodeId, name: string) {
    Readable(fs, d).Some? && name in Readable(fs, d).value
  }

  /** `name` is listed in `d`, and there is something there. */
  predicate Leads(fs: FileSystem, d: NodeId, name: string) {
    Lists(fs, d, name) && name in fs[d].targets && fs[d].targets[name] in fs
  }

  /** The nodes a path goes through, from the starting point to its end. */
  function Trail(fs: FileSystem, at: NodeId, p: Path): (t: Option<seq<NodeId>>)
    ensures t.Some? ==> |t.value| == |p| + 1 && t.value[0] == at
    decreases |p|
  {
    if p == [] then Some([at])
    else if !Leads(fs, at, p[0]) then None
    else
      var rest := Trail(fs, fs[at].targets[p[0]], p[1..]);
      if rest.None? then None else Some([at] + rest.value)
  }

  /** No two of these are directories with the same identity. */
  ghost predicate NoDirTwice(fs: FileSystem, nodes: seq<NodeId>) {
    forall i, j :: 0 <= i < j < |nodes| && IsDir(fs, nodes[i]) && IsDir(fs, nodes[j]) ==>
      KeyOf(fs, nodes[i]) != KeyOf(fs, nodes[j])
  }

  /** A trailing `**` enters the last component if it is a directory; a plain last segment only
      compares its name, which need not lead anywhere. */
  ghost predicate Reached(fs: FileSystem, accepts: Accepts, at: NodeId, pats: seq<string>, p: Path) {
    if pats == [] then false
    else if Last(pats) == "**" then
      var t := Trail(fs, at, p);
      t.Some? && NoDirTwice(fs, t.value)
      && Matches(accepts, pats, p, p == [] || IsDir(fs, Last(t.value)))
    else
      p != [] &&
      var t := Trail(fs, at, Init(p));
      t.Some? && Lists(fs, Last(t.value), Last(p)) && NoDirTwice(fs, t.value)
      && Matches(accepts, pats, p, false)
  }

  /** Directories among these are new to a walk that has visited `visited`, and to each other. */
  ghost predicate AllNew(fs: FileSystem, nodes: seq<NodeId>, visited: set<Key>) {
    NoDirTwice(fs, nodes)
    && forall i :: 0 <= i < |nodes| && IsDir(fs, nodes[i]) ==> KeyOf(fs, nodes[i]) !in visited
  }

  lemma AllNewCons(fs: FileSystem, d: NodeId, rest: seq<NodeId>, visited: set<Key>)
    requires IsDir(fs, d)
    ensures AllNew(fs, [d] + rest, visited)
       <==> KeyOf(fs, d) !in visited && AllNew(fs, rest, visited + {KeyOf(fs, d)})
  {
    var all := [d] + rest;
    assert all[0] == d;
    assert forall i :: 0 <= i < |rest| ==> all[i + 1] == rest[i];
    if AllNew(fs, all, visited) {
      assert KeyOf(fs, all[0]) !in visited;
      forall i | 0 <= i < |rest| && IsDir(fs, rest[i])
        ensures KeyOf(fs, rest[i]) !in visited + {KeyOf(fs, d)}
      {
        assert IsDir(fs, all[i + 1]);
      }
      forall i, j | 0 <= i < j < |rest| && IsDir(fs, rest[i]) && IsDir(fs, rest[j])
        ensures KeyOf(fs, rest[i]) != KeyOf(fs, rest[j])
      {
        assert IsDir(fs, all[i + 1]) && IsDir(fs, all[j + 1]);
      }
    }
    if KeyOf(fs, d) !in visited && AllNew(fs, rest, visited + {KeyOf(fs, d)}) {
      forall i | 0 <= i < |all| && IsDir(fs, all[i])
        ensures KeyOf(fs, all[i]) !in visited
        ensures i > 0 ==> KeyOf(fs, all[i]) != KeyOf(fs, d)
      {
        if i > 0 {
          assert IsDir(fs, rest[i - 1]);
        }
      }
      forall i, j | 0 <= i < j < |all| && IsDir(fs, all[i]) && IsDir(fs, all[j])
        ensures KeyOf(fs, all[i]) != KeyOf(fs, all[j])
      {
        if i > 0 {
          assert IsDir(fs, rest[i - 1]) && IsDir(fs, rest[j - 1]);
        }
      }
    }
  }

  /** What a descent meets on the way, and what it makes of the last component. */
  ghost predicate Meets(fs: FileSystem, at: NodeId, p: Path, visited: set<Key>,
                        kinds: Option<seq<Kind>>)
    requires p != []
  {
    var t, full := Trail(fs, at, Init(p)), Trail(fs, at, p);
    && (kinds.Some? <==> t.Some? && Lists(fs, Last(t.value), Last(p))
                         && AllNew(fs, t.value[1..], visited))
    && (kinds.Some? ==>
          && |kinds.value| == |p| && EntersAll(kinds.value)
          && (Last(kinds.value).FreshDir? <==> full.Some? && IsDir(fs, Last(full.value))
                                               && AllNew(fs, full.value[1..], visited))
          && (Last(kinds.value).NonDir? <==> full.Some? && !IsDir(fs, Last(full.value))))
  }

  lemma MeetsOne(fs: FileSystem, at: NodeId, p: Path, visited: set<Key>)
    requires Keyed(fs) && |p| == 1
    ensures Meets(fs, at, p, visited, Trace(fs, at, p, visited))
  {
    assert Init(p) == [] && [at][1..] == [];
    if Leads(fs, at, p[0]) {
      var id := fs[at].targets[p[0]];
      assert p[1..] == [] && Trail(fs, at, p) == Some([at] + [id]) && ([at] + [id])[1..] == [id];
    }
  }

  /** The rest of the way is that from the first component on. */
  lemma TrailRest(fs: FileSystem, at: NodeId, p: Path)
    requires |p| > 1
    ensures Init(p)[1..] == Init(p[1..]) && Last(p[1..]) == Last(p)
    ensures !Leads(fs, at, p[0]) ==> Trail(fs, at, p).None? && Trail(fs, at, Init(p)).None?
    ensures Leads(fs, at, p[0]) ==>
              var id := fs[at].targets[p[0]];
              && Behind(at, Trail(fs, id, p[1..]), Trail(fs, at, p))
              && Behind(at, Trail(fs, id, Init(p[1..])), Trail(fs, at, Init(p)))
  {
    assert Init(p)[1..] == Init(p[1..]);
  }

  ghost predicate Behind(at: NodeId, rest: Option<seq<NodeId>>, t: Option<seq<NodeId>>) {
    (rest.None? <==> t.None?)
    && (t.Some? ==> rest.value != [] && t.value == [at] + rest.value && t.value[1..] == rest.value
                    && Last(t.value) == Last(rest.value))
  }

  /** A file, or something that is not there, leads nowhere. */
  lemma NoDirNoTrail(fs: FileSystem, at: NodeId, p: Path)
    requires p != [] && !IsDir(fs, at)
    ensures Trail(fs, at, p).None?
    ensures Trail(fs, at, Init(p)).Some? ==> !Lists(fs, Last(Trail(fs, at, Init(p)).value), Last(p))
  {
    assert |p| == 1 ==> Init(p) == [];
  }

  lemma MeetsMore(fs: FileSystem, at: NodeId, p: Path, visited: set<Key>)
    requires Keyed(fs) && |p| > 1 && Leads(fs, at, p[0]) && IsDir(fs, fs[at].targets[p[0]])
    requires var id := fs[at].targets[p[0]];
             Meets(fs, id, p[1..], visited + {KeyOf(fs, id)},
                   Trace(fs, id, p[1..], visited + {KeyOf(fs, id)}))
    ensures Meets(fs, at, p, visited, Trace(fs, at, p, visited))
  {
    hide Trail;
    var id := fs[at].targets[p[0]];
    var inner := Trace(fs, id, p[1..], visited + {KeyOf(fs, id)});
    TrailRest(fs, at, p);
    RestIsNew(fs, id, Trail(fs, id, Init(p[1..])), visited);
    RestIsNew(fs, id, Trail(fs, id, p[1..]), visited);
    hide AllNew;
    assert Trace(fs, at, p, visited)
        == if KeyOf(fs, id) in visited || inner.None? then None
           else Some([FreshDir(id)] + inner.value);
    hide Trace;
    if inner.Some? {
      var all := [FreshDir(id)] + inner.value;
      assert forall i :: 0 < i < |all| ==> all[i] == inner.value[i - 1];
    }
  }

  lemma RestIsNew(fs: FileSystem, id: NodeId, t: Option<seq<NodeId>>, visited: set<Key>)
    requires IsDir(fs, id) && (t.Some? ==> t.value != [] && t.value[0] == id)
    ensures t.Some? ==> (AllNew(fs, t.value, visited)
                    <==> KeyOf(fs, id) !in visited
                         && AllNew(fs, t.value[1..], visited + {KeyOf(fs, id)}))
  {
    if t.Some? {
      AllNewCons(fs, id, t.value[1..], visited);
      assert t.value == [id] + t.value[1..];
    }
  }

  lemma {:induction false} TraceMeets(fs: FileSystem, at: NodeId, p: Path, visited: set<Key>)
    requires Keyed(fs) && p != []
    ensures Meets(fs, at, p, visited, Trace(fs, at, p, visited))
    decreases |p|
  {
    if |p| == 1 {
      MeetsOne(fs, at, p, visited);
    } else if Leads(fs, at, p[0]) && IsDir(fs, fs[at].targets[p[0]]) {
      var id := fs[at].targets[p[0]];
      TraceMeets(fs, id, p[1..], visited + {KeyOf(fs, id)});
      MeetsMore(fs, at, p, visited);
    } else {
      MeetsNothing(fs, at, p, visited);
    }
  }

  lemma MeetsNothing(fs: FileSystem, at: NodeId, p: Path, visited: set<Key>)
    requires |p| > 1 && !(Leads(fs, at, p[0]) && IsDir(fs, fs[at].targets[p[0]]))
    ensures Meets(fs, at, p, visited, Trace(fs, at, p, visited))
  {
    TrailRest(fs, at, p);
    if Leads(fs, at, p[0]) {
      NoDirNoTrail(fs, fs[at].targets[p[0]], p[1..]);
    }
    assert Trace(fs, at, p, visited).None?;
    hide Trail, Trace, AllNew;
  }

  // ---- What is yielded ----------------------------------------------------------------------

  /** Being new to a walk that starts with `at` visited is not repeating it. */
  lemma NewToRoot(fs: FileSystem, at: NodeId, nodes: seq<NodeId>)
    requires nodes != [] && nodes[0] == at
    requires |nodes| > 1 ==> IsDir(fs, at)
    ensures Keyed(fs) ==>
              (AllNew(fs, nodes[1..], RootVisited(fs, at)) <==> NoDirTwice(fs, nodes))
  {
    if IsDir(fs, at) {
      AllNewCons(fs, at, nodes[1..], {});
      assert nodes == [at] + nodes[1..];
      assert {} + {KeyOf(fs, at)} == {KeyOf(fs, at)};
    } else {
      assert nodes[1..] == [];
    }
  }

  lemma TrailStarts(fs: FileSystem, at: NodeId, p: Path)
    ensures Trail(fs, at, p).Some? && p != [] ==> IsDir(fs, at)
  {}

  /** A plain last segment takes a component, whatever that component is. */
  lemma {:induction false} PlainLast(accepts: Accepts, pats: seq<string>, p: Path, dir: bool)
    requires pats != [] && Last(pats) != "**"
    ensures Matches(accepts, pats, p, dir) <==> Matches(accepts, pats, p, false)
    ensures !Matches(accepts, pats, [], dir)
    decreases |pats|
  {
    if |pats| > 1 {
      assert Last(pats[1..]) == Last(pats);
      forall k | 0 <= k <= |p|
        ensures Matches(accepts, pats[1..], p[k..], dir) <==> Matches(accepts, pats[1..], p[k..], false)
        ensures !Matches(accepts, pats[1..], [], dir)
      {
        PlainLast(accepts, pats[1..], p[k..], dir);
      }
      if IsStar(pats) {
        MatchesStarEmpty(accepts, pats, dir);
        PlainLast(accepts, pats[1..], [], dir);
      } else if |p| == 1 {
        assert p[1..] == [];
        PlainLast(accepts, pats[1..], [], dir);
        PlainLast(accepts, pats[1..], [], false);
      }
    }
  }

  lemma {:induction false} TrailInit(fs: FileSystem, at: NodeId, p: Path)
    requires p != []
    ensures var t, full := Trail(fs, at, Init(p)), Trail(fs, at, p);
            && (full.Some? <==> t.Some? && Leads(fs, Last(t.value), Last(p)))
            && (full.Some? ==> full.value == t.value + [Last(full.value)])
    decreases |p|
  {
    if |p| == 1 {
      assert Init(p) == [];
    } else {
      TrailRest(fs, at, p);
      if Leads(fs, at, p[0]) {
        TrailInit(fs, fs[at].targets[p[0]], p[1..]);
      }
    }
  }

  /** One more node that is no directory repeats nothing. */
  lemma NoDirLast(fs: FileSystem, nodes: seq<NodeId>, last: NodeId)
    requires !IsDir(fs, last)
    ensures NoDirTwice(fs, nodes + [last]) <==> NoDirTwice(fs, nodes)
  {
    var all := nodes + [last];
    assert forall i :: 0 <= i < |nodes| ==> all[i] == nodes[i];
  }

  lemma NoDirPrefix(fs: FileSystem, nodes: seq<NodeId>, last: NodeId)
    requires NoDirTwice(fs, nodes + [last])
    ensures NoDirTwice(fs, nodes)
  {
    var all := nodes + [last];
    assert forall i :: 0 <= i < |nodes| ==> all[i] == nodes[i];
  }

  lemma ReachedNothing(fs: FileSystem, accepts: Accepts, at: NodeId, pats: seq<string>)
    ensures WaysAlong(fs, accepts, at, pats, RootVisited(fs, at), []) > 0
       <==> Reached(fs, accepts, at, pats, [])
  {
    WaysIffMatches(accepts, pats, [], []);
    if pats != [] && Last(pats) != "**" {
      PlainLast(accepts, pats, [], true);
    }
  }

  lemma ReachedIff(fs: FileSystem, accepts: Accepts, at: NodeId, pats: seq<string>, p: Path)
    requires Keyed(fs)
    ensures WaysAlong(fs, accepts, at, pats, RootVisited(fs, at), p) > 0
       <==> Reached(fs, accepts, at, pats, p)
  {
    if p == [] {
      ReachedNothing(fs, accepts, at, pats);
    } else if pats != [] {
      var visited := RootVisited(fs, at);
      var kinds := Trace(fs, at, p, visited);
      var t, full := Trail(fs, at, Init(p)), Trail(fs, at, p);
      TraceMeets(fs, at, p, visited);
      TrailInit(fs, at, p);
      TrailStarts(fs, at, p);
      TrailStarts(fs, at, Init(p));
      if t.Some? {
        NewToRoot(fs, at, t.value);
      }
      if full.Some? {
        NewToRoot(fs, at, full.value);
        if !IsDir(fs, Last(full.value)) {
          NoDirLast(fs, t.value, Last(full.value));
        } else if NoDirTwice(fs, full.value) {
          NoDirPrefix(fs, t.value, Last(full.value));
        }
      }
      hide Trail, Trace, AllNew, NoDirTwice, RootVisited, Matches, Ways;
      if kinds.Some? {
        WaysIffMatches(accepts, pats, p, kinds.value);
        assert EndsInDir(kinds.value) == Last(kinds.value).FreshDir?;
      }
      if Last(pats) != "**" {
        PlainLast(accepts, pats, p, true);
      }
    }
  }

  lemma {:induction false} CountIn(paths: seq<Path>, p: Path)
    ensures Count(paths, p) > 0 <==> p in paths
    decreases |paths|
  {
    if paths != [] {
      CountIn(paths[1..], p);
      assert paths == [paths[0]] + paths[1..];
    }
  }

  /** Cycles and links included: a path is yielded if and only if it is reached. */
  lemma WalkReaches(fs: FileSystem, accepts: Accepts, at: NodeId, pats: seq<string>, p: Path)
    requires Keyed(fs) && ProperListings(fs)
    ensures p in Walk(fs, accepts, at, pats, RootVisited(fs, at))
       <==> Reached(fs, accepts, at, pats, p)
  {
    hide Walk, WaysAlong, Reached, RootVisited, Count;
    CountWalk(fs, accepts, at, pats, RootVisited(fs, at), p);
    CountIn(Walk(fs, accepts, at, pats, RootVisited(fs, at)), p);
    ReachedIff(fs, accepts, at, pats, p);
  }

  /** A directory whose only entry links back to it: `**` yields the directory and nothing else. */
  lemma SelfLinkExample(accepts: Accepts, p: Path)
    ensures var fs: FileSystem := map[0 := Dir(1, 2, Some(["loop"]), map["loop" := 0])];
            Reached(fs, accepts, 0, ["**"], p) <==> p == []
  {
    var fs: FileSystem := map[0 := Dir(1, 2, Some(["loop"]), map["loop" := 0])];
    if p != [] && Reached(fs, accepts, 0, ["**"], p) {
      var t := Trail(fs, 0, p).value;
      assert t[0] == 0 && t[1] == Trail(fs, fs[0].targets[p[0]], p[1..]).value[0];
    }
    assert NoDirTwice(fs, [0]);
  }
}
