/**
 * The repository catalog: the configured list of `{name, path, base?}`
 * entries, and the lookups the engine and the request handlers make in it.
 */
module Catalog {
  import opened Base

  /** One configured repository; `base` is the URL a fresh clone is seeded from. */
  datatype Entry = Entry(name: string, path: string, base: Option<string>)

  /** The position of the first entry called `name`, or `|repos|` when there is none. */
  function FirstIndex(repos: seq<Entry>, name: string): (i: nat)
    ensures i <= |repos|
    ensures i < |repos| ==> repos[i].name == name
    ensures forall j :: 0 <= j < i ==> repos[j].name != name
  {
    if repos == [] then 0
    else if repos[0].name == name then 0
    else 1 + FirstIndex(repos[1..], name)
  }

  /** The entry `find_repo` returns: the first one called `name`. */
  function Find(repos: seq<Entry>, name: string): (r: Option<Entry>)
    ensures r.Some? <==> exists j :: 0 <= j < |repos| && repos[j].name == name
    ensures r.Some? ==> r.value == repos[FirstIndex(repos, name)] && r.value.name == name
  {
    var i := FirstIndex(repos, name);
    if i < |repos| then Some(repos[i]) else None
  }

  /** `find_repo`: a linear scan that returns the first entry with the name. */
  method FindRepo(repos: seq<Entry>, name: string) returns (r: Option<Entry>)
    ensures r.Some? ==> r.value in repos && r.value.name == name
    ensures r.Some? ==> exists i :: 0 <= i < |repos| && repos[i] == r.value
                                   && forall j :: 0 <= j < i ==> repos[j].name != name
    ensures r.None? <==> forall j :: 0 <= j < |repos| ==> repos[j].name != name
    ensures r == Find(repos, name)
  {
    var i := 0;
    while i < |repos|
      invariant 0 <= i <= |repos|
      invariant forall j :: 0 <= j < i ==> repos[j].name != name
    {
      if repos[i].name == name {
        return Some(repos[i]);
      }
      i := i + 1;
    }
    return None;
  }

  /** `has_repo`. */
  function HasRepo(repos: seq<Entry>, name: string): (b: bool)
    ensures b <==> exists j :: 0 <= j < |repos| && repos[j].name == name
  {
    Find(repos, name).Some?
  }

  /** `get_repo_url`: the `path` of the first entry with the name. */
  function RepoUrl(repos: seq<Entry>, name: string): (u: Option<string>)
    ensures u.None? <==> !HasRepo(repos, name)
    ensures u.Some? ==> u.value == repos[FirstIndex(repos, name)].path
  {
    match Find(repos, name)
    case None => None
    case Some(e) => Some(e.path)
  }

  /** `get_repo_base_url`: the entry's `base`, or its `path` when it has none. */
  function RepoBaseUrl(repos: seq<Entry>, name: string): (u: Option<string>)
    ensures u.None? <==> !HasRepo(repos, name)
    ensures u.Some? ==> var e := repos[FirstIndex(repos, name)];
                        u.value == if e.base.Some? then e.base.value else e.path
  {
    match Find(repos, name)
    case None => None
    case Some(e) => if e.base.Some? then Some(e.base.value) else Some(e.path)
  }

  /** A repository without a `base` is seeded from its own `path`. */
  lemma BaseDefaultsToPath(repos: seq<Entry>, name: string)
    requires HasRepo(repos, name) && Find(repos, name).value.base.None?
    ensures RepoBaseUrl(repos, name) == RepoUrl(repos, name)
  {
  }

  /** `is_allowed_transplant`: a repository is never transplanted into itself. */
  function IsAllowedTransplant(src: string, dst: string): (b: bool)
    ensures b <==> src != dst
  {
    src != dst
  }

  /** The catalog used when none is configured. */
  const DefaultRepositories: seq<Entry> := [
    Entry("transplant-src", "ssh://hg@bitbucket.org/laggyluke/transplant-src", None),
    Entry("transplant-dst", "ssh://hg@bitbucket.org/laggyluke/transplant-dst",
          Some("ssh://hg@bitbucket.org/laggyluke/transplant-src"))
  ]

  /** In the default catalog the destination is seeded from the source repository. */
  lemma DefaultDestinationSeededFromSource()
    ensures RepoBaseUrl(DefaultRepositories, "transplant-dst") == RepoUrl(DefaultRepositories, "transplant-src")
    ensures RepoUrl(DefaultRepositories, "transplant-dst") != RepoUrl(DefaultRepositories, "transplant-src")
  {
    assert FirstIndex(DefaultRepositories, "transplant-dst") == 1;
    assert FirstIndex(DefaultRepositories, "transplant-src") == 0;
  }
}
