/** A whole glob on a directory tree: the walker with the expressions it compiles, against the
    wildcards of the pattern. */
module GlobNames {
  import opened GlobWalk
  import opened GlobMeaning
  import opened GlobTree
  import opened GlobRegex
  import opened GlobRegexMeaning

  /** What the walker asks of a name: the expression compiled from the segment. */
  function CompiledAccepts(segment: string, name: string): bool {
    var r := ParseRegex("^" + Body(segment) + "$");
    r.Some? && RegexAccepts(r.value, name)
  }

  /** What the segment says. */
  function WildcardsAccept(segment: string, name: string): bool {
    GlobAccepts(Tokens(segment), name)
  }

  /** The segment quotes no wildcard, and has no range that runs backwards. */
  ghost predicate Plain(segment: string) {
    NoQuoted(Tokens(segment)) && AllOrdered(Tokens(segment))
  }

  ghost predicate PlainPattern(pats: seq<string>) {
    forall i :: 0 <= i < |pats| ==> pats[i] == "**" || Plain(pats[i])
  }

  /** No name in a listing has a slash. */
  ghost predicate SlashFreeNames(fs: FileSystem) {
    forall d, name :: Readable(fs, d).Some? && name in Readable(fs, d).value ==> '/' !in name
  }

  lemma PlainAgrees(segment: string, name: string)
    requires Plain(segment) && '/' !in name
    ensures CompiledAccepts(segment, name) == WildcardsAccept(segment, name)
  {
    hide Body, ParseRegex, RegexAccepts, GlobAccepts, Tokens, NoQuoted, AllOrdered;
    NothingQuotedIsFaithful(segment);
  }

  lemma {:induction false} ExistingNames(fs: FileSystem, at: NodeId, p: Path, i: nat)
    requires SlashFreeNames(fs) && Exists(fs, at, p) && i < |p|
    ensures '/' !in p[i]
    decreases |p|
  {
    if i > 0 {
      ExistingNames(fs, fs[at].targets[p[0]], p[1..], i - 1);
    }
  }

  lemma {:induction false} MatchesAgree(a: Accepts, b: Accepts, pats: seq<string>, p: Path,
                                        endsInDir: bool)
    requires forall i, j :: 0 <= i < |pats| && 0 <= j < |p| && pats[i] != "**" ==>
               a(pats[i], p[j]) == b(pats[i], p[j])
    ensures Matches(a, pats, p, endsInDir) == Matches(b, pats, p, endsInDir)
    decreases |pats|
  {
    if |pats| > 1 {
      forall k | 0 <= k <= |p|
        ensures Matches(a, pats[1..], p[k..], endsInDir) == Matches(b, pats[1..], p[k..], endsInDir)
      {
        MatchesAgree(a, b, pats[1..], p[k..], endsInDir);
      }
    }
  }

  /** On a tree, a glob whose segments quote no wildcard and have no range that runs backwards yields
      exactly the existing paths whose components its wildcards and classes accept, each once when it
      has at most one `**`. */
  lemma GlobYieldsWildcardMatches(fs: FileSystem, rank: NodeId -> nat, at: NodeId,
                                  pats: seq<string>, p: Path)
    requires Tree(fs, rank) && SlashFreeNames(fs) && PlainPattern(pats)
    ensures var n := Count(Walk(fs, CompiledAccepts, at, pats, RootVisited(fs, at)), p);
            && (n > 0 <==> Exists(fs, at, p)
                           && Matches(WildcardsAccept, pats, p, NamesDir(fs, at, p)))
            && (Stars(pats) <= 1 ==> n <= 1)
  {
    hide Tree, Count, Walk, Exists, Matches, Stars, CompiledAccepts, WildcardsAccept;
    GlobYieldsMatches(fs, rank, CompiledAccepts, at, pats, p);
    if Exists(fs, at, p) {
      forall i, j | 0 <= i < |pats| && 0 <= j < |p| && pats[i] != "**"
        ensures CompiledAccepts(pats[i], p[j]) == WildcardsAccept(pats[i], p[j])
      {
        ExistingNames(fs, at, p, j);
        PlainAgrees(pats[i], p[j]);
      }
      MatchesAgree(CompiledAccepts, WildcardsAccept, pats, p, NamesDir(fs, at, p));
    }
  }
}
