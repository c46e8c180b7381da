/** The recursive glob walkers of packages/kaos/src/local.ts and ssh.ts over a finite graph of
    directories. Which names a plain segment accepts is the subject of GlobRegex; here it is the
    parameter `accepts`. */
module GlobWalk {
  import opened Wrappers

  type NodeId = nat
  type Path = seq<string>
  type Accepts = (string, string) -> bool

  /** A directory has an identity, a listing unless it cannot be read, and for each name the node
      that stat finds there; a name without a target cannot be stat-ed. */
  datatype Node =
    | File
    | Dir(dev: nat, ino: nat, listing: Option<seq<string>>, targets: map<string, NodeId>)

  type FileSystem = map<NodeId, Node>

  type Key = (nat, nat)

  /** Null where the file system has no inodes. */
  function CycleKey(n: Node): Option<Key>
    requires n.Dir?
  {
    if n.ino == 0 then None else Some((n.dev, n.ino))
  }

  predicate IsDir(fs: FileSystem, at: NodeId) { at in fs && fs[at].Dir? }

  ghost predicate Keyed(fs: FileSystem) { forall d :: IsDir(fs, d) ==> CycleKey(fs[d]).Some? }

  function KeyOf(fs: FileSystem, d: NodeId): Key
    requires IsDir(fs, d)
  {
    (fs[d].dev, fs[d].ino)
  }

  ghost function AllKeys(fs: FileSystem): set<Key> { set d | d in fs && fs[d].Dir? :: KeyOf(fs, d) }

  ghost function Unvisited(fs: FileSystem, visited: set<Key>): nat { |AllKeys(fs) - visited| }

  /** What a directory entry turns out to be on a descent that has visited `visited`. */
  datatype Kind = FreshDir(id: NodeId) | SeenDir | NonDir | Missing

  function KindOf(fs: FileSystem, d: NodeId, name: string, visited: set<Key>): (k: Kind)
    requires IsDir(fs, d)
    ensures k.FreshDir? ==> IsDir(fs, k.id)
  {
    if name !in fs[d].targets || fs[d].targets[name] !in fs then Missing
    else
      var id := fs[d].targets[name];
      if fs[id].File? then NonDir
      else if CycleKey(fs[id]).Some? && CycleKey(fs[id]).value in visited then SeenDir
      else FreshDir(id)
  }

  function Entering(fs: FileSystem, id: NodeId, visited: set<Key>): set<Key>
    requires IsDir(fs, id)
  {
    if CycleKey(fs[id]).Some? then visited + {CycleKey(fs[id]).value} else visited
  }

  lemma EnteringShrinks(fs: FileSystem, id: NodeId, visited: set<Key>)
    requires IsDir(fs, id) && CycleKey(fs[id]).Some? && CycleKey(fs[id]).value !in visited
    ensures Unvisited(fs, Entering(fs, id, visited)) < Unvisited(fs, visited)
  {
    var key := CycleKey(fs[id]).value;
    assert key == KeyOf(fs, id) && key in AllKeys(fs);
    assert AllKeys(fs) - visited == AllKeys(fs) - (visited + {key}) + {key};
  }

  lemma DescentShrinks(fs: FileSystem, d: NodeId, name: string, visited: set<Key>)
    requires Keyed(fs) && IsDir(fs, d) && KindOf(fs, d, name, visited).FreshDir?
    ensures var id := KindOf(fs, d, name, visited).id;
            Unvisited(fs, Entering(fs, id, visited)) < Unvisited(fs, visited)
  {
    EnteringShrinks(fs, KindOf(fs, d, name, visited).id, visited);
  }

  // ---- The walk as a function ---------------------------------------------------------------

  function Under(name: string, paths: seq<Path>): (r: seq<Path>)
    ensures |r| == |paths|
  {
    seq(|paths|, i requires 0 <= i < |paths| => [name] + paths[i])
  }

  predicate IsStar(pats: seq<string>) { pats != [] && pats[0] == "**" }

  function Readable(fs: FileSystem, at: NodeId): Option<seq<string>> {
    if IsDir(fs, at) then fs[at].listing else None
  }

  /** The paths yielded below node `at`, relative to it. Termination is the cycle check: each
      descent uses up a key, and staying in a directory uses up a pattern part. */
  function Walk(fs: FileSystem, accepts: Accepts, at: NodeId, pats: seq<string>,
                visited: set<Key>): seq<Path>
    requires Keyed(fs)
    decreases Unvisited(fs, visited), |pats|, 2, 0
  {
    if pats == [] then []
    else
      (if !IsStar(pats) then []
       else if |pats| > 1 then Walk(fs, accepts, at, pats[1..], visited)
       else [[]])
      + match Readable(fs, at)
        case None => []
        case Some(names) => OfEntries(fs, accepts, at, names, pats, visited)
  }

  function OfEntries(fs: FileSystem, accepts: Accepts, d: NodeId, names: seq<string>,
                     pats: seq<string>, visited: set<Key>): seq<Path>
    requires Keyed(fs) && IsDir(fs, d) && pats != []
    decreases Unvisited(fs, visited), |pats|, 1, |names|
  {
    if names == [] then []
    else OfEntry(fs, accepts, d, names[0], pats, visited)
         + OfEntries(fs, accepts, d, names[1..], pats, visited)
  }

  function OfEntry(fs: FileSystem, accepts: Accepts, d: NodeId, name: string,
                   pats: seq<string>, visited: set<Key>): seq<Path>
    requires Keyed(fs) && IsDir(fs, d) && pats != []
    decreases Unvisited(fs, visited), |pats|, 0, 0
  {
    if IsStar(pats) then
      match KindOf(fs, d, name, visited)
      case FreshDir(id) =>
        EnteringShrinks(fs, id, visited);
        Under(name, Walk(fs, accepts, id, pats, Entering(fs, id, visited)))
      case NonDir => if |pats| == 1 then [[name]] else []
      case _ => []
    else if !accepts(pats[0], name) then []
    else if |pats| == 1 then [[name]]
    else
      match KindOf(fs, d, name, visited)
      case FreshDir(id) =>
        EnteringShrinks(fs, id, visited);
        Under(name, Walk(fs, accepts, id, pats[1..], Entering(fs, id, visited)))
      case _ => []
  }

  /** The starting directory counts as visited. */
  function RootVisited(fs: FileSystem, at: NodeId): set<Key> {
    if IsDir(fs, at) then Entering(fs, at, {}) else {}
  }
}
