/** Enumeration of the organization's repositories (`getRepos`): every page
    of the listing is fetched and archived repositories are dropped. */
module Repos {
  import opened Base
  import opened Paging

  /** A repository as the listing reports it. */
  datatype RepoNode = RepoNode(name: string, url: string, isArchived: bool)

  /** A repository the rest of the program works on. */
  datatype RepoHandle = RepoHandle(name: string, url: string)

  /** The handles of the non-archived nodes, in listing order. */
  function Handles(nodes: seq<RepoNode>): (r: seq<RepoHandle>)
    ensures |r| <= |nodes|
    ensures (forall i :: 0 <= i < |nodes| ==> !nodes[i].isArchived) ==> |r| == |nodes|
    ensures (forall i :: 0 <= i < |nodes| ==> nodes[i].isArchived) ==> r == []
  {
    if nodes == [] then []
    else
      (if nodes[0].isArchived then [] else [RepoHandle(nodes[0].name, nodes[0].url)])
      + Handles(nodes[1..])
  }

  lemma {:induction false} HandlesAppend(xs: seq<RepoNode>, ys: seq<RepoNode>)
    ensures Handles(xs + ys) == Handles(xs) + Handles(ys)
  {
    if xs != [] {
      assert (xs + ys)[0] == xs[0] && (xs + ys)[1..] == xs[1..] + ys;
      HandlesAppend(xs[1..], ys);
    } else {
      assert xs + ys == ys;
    }
  }

  /** A handle is listed exactly when some non-archived node has its name and
      URL: archived repositories never appear, wherever they stand. */
  lemma {:induction false} HandlesListed(nodes: seq<RepoNode>, h: RepoHandle)
    ensures h in Handles(nodes) <==>
      exists i :: 0 <= i < |nodes| && !nodes[i].isArchived && h == RepoHandle(nodes[i].name, nodes[i].url)
  {
    if nodes != [] {
      HandlesListed(nodes[1..], h);
      if h in Handles(nodes[1..]) {
        var i :| 0 <= i < |nodes[1..]| && !nodes[1..][i].isArchived
          && h == RepoHandle(nodes[1..][i].name, nodes[1..][i].url);
        assert nodes[i + 1] == nodes[1..][i];
      }
      if exists i :: 0 <= i < |nodes| && !nodes[i].isArchived && h == RepoHandle(nodes[i].name, nodes[i].url) {
        var i :| 0 <= i < |nodes| && !nodes[i].isArchived && h == RepoHandle(nodes[i].name, nodes[i].url);
        if i > 0 {
          assert nodes[1..][i - 1] == nodes[i];
        }
      }
    }
  }

  /** Fetches every page of the repository listing, starting without a cursor
      and forwarding each page's end cursor while the page says more follow,
      and collects the non-archived repositories in listing order. A failed
      request aborts with its error and no partial list. */
  method GetRepos(fetch: Cursor -> Result<Page<RepoNode>>, ghost fuel: nat) returns (r: Result<seq<RepoHandle>>)
    requires Finishes(fetch, None, fuel)
    ensures r == match Pages(fetch, None, fuel)
                 case Err(e) => Err(e)
                 case Ok(pages) => Ok(Handles(Nodes(pages)))
  {
    var cursor: Cursor := None;
    var hasNextPage := false;
    var repos: seq<RepoHandle> := [];
    ghost var done: seq<Page<RepoNode>> := [];
    ghost var left := fuel;
    PrependNothing(Pages(fetch, None, fuel));
    while cursor.None? || hasNextPage
      invariant repos == Handles(Nodes(done))
      invariant cursor.None? || hasNextPage ==>
        Finishes(fetch, cursor, left) && Pages(fetch, None, fuel) == Prepend(done, Pages(fetch, cursor, left))
      invariant !(cursor.None? || hasNextPage) ==> Pages(fetch, None, fuel) == Ok(done)
      decreases left
    {
      Advance(Pages(fetch, None, fuel), done, fetch, cursor, left);
      var response := fetch(cursor);
      if response.Err? {
        return Err(response.error);
      }
      var page := response.value;
      cursor := Some(page.endCursor);
      hasNextPage := page.hasNextPage;
      repos := AppendListed(repos, page.nodes);
      NodesAppend(done, page);
      HandlesAppend(Nodes(done), page.nodes);
      done := done + [page];
      left := left - 1;
    }
    r := Ok(repos);
  }

  /** The inner loop of `GetRepos`: appends the handles of the page's
      non-archived repositories, in order. */
  method AppendListed(repos: seq<RepoHandle>, nodes: seq<RepoNode>) returns (r: seq<RepoHandle>)
    ensures r == repos + Handles(nodes)
  {
    r := repos;
    for i := 0 to |nodes|
      invariant r == repos + Handles(nodes[..i])
    {
      var repoInfo := nodes[i];
      assert nodes[..i + 1] == nodes[..i] + [repoInfo];
      HandlesAppend(nodes[..i], [repoInfo]);
      if repoInfo.isArchived {
        continue;
      }
      r := r + [RepoHandle(repoInfo.name, repoInfo.url)];
    }
    assert nodes[..|nodes|] == nodes;
  }
}
