/** Team hierarchy (`getTeamFullnames`): every team of the organization is
    listed page by page, then each team's full name is built by walking its
    parent chain upward and prepending each ancestor's slug with a `/`. */
module Teams {
  import opened Base
  import opened Paging

  /** A team as the listing reports it; `parentSlug` is `None` for a team
      without a parent team. */
  datatype TeamNode = TeamNode(slug: string, parentSlug: Option<string>)

  /** What the listing yields: every slug, in listing order, and the parent
      slug of each team that has one. */
  datatype TeamListing = TeamListing(slugs: seq<string>, parents: map<string, string>)

  /** The slugs of the nodes, in order. */
  function Slugs(nodes: seq<TeamNode>): seq<string>
  {
    if nodes == [] then [] else [nodes[0].slug] + Slugs(nodes[1..])
  }

  /** Records one node's parent, if it has one; a later node for the same slug
      overwrites an earlier one. */
  function RecordParent(parents: map<string, string>, node: TeamNode): (r: map<string, string>)
    ensures r.Keys == parents.Keys + (if node.parentSlug.Some? then {node.slug} else {})
    ensures forall slug :: slug in parents && slug != node.slug ==> r[slug] == parents[slug]
    ensures node.parentSlug.Some? ==> r[node.slug] == node.parentSlug.value
    ensures node.parentSlug.None? ==> r == parents
  {
    if node.parentSlug.Some? then parents[node.slug := node.parentSlug.value] else parents
  }

  /** Records the parent links of `nodes`, in order, on top of `parents`. */
  function ParentsFrom(parents: map<string, string>, nodes: seq<TeamNode>): (r: map<string, string>)
    ensures parents.Keys <= r.Keys
    decreases |nodes|
  {
    if nodes == [] then parents else ParentsFrom(RecordParent(parents, nodes[0]), nodes[1..])
  }

  /** The parent map the listing of `nodes` builds. */
  function ParentMap(nodes: seq<TeamNode>): map<string, string>
  {
    ParentsFrom(map[], nodes)
  }

  lemma {:induction false} SlugsAppend(xs: seq<TeamNode>, ys: seq<TeamNode>)
    ensures Slugs(xs + ys) == Slugs(xs) + Slugs(ys)
  {
    if xs != [] {
      assert (xs + ys)[0] == xs[0] && (xs + ys)[1..] == xs[1..] + ys;
      SlugsAppend(xs[1..], ys);
    } else {
      assert xs + ys == ys;
    }
  }

  lemma {:induction false} ParentsFromAppend(parents: map<string, string>, xs: seq<TeamNode>, ys: seq<TeamNode>)
    ensures ParentsFrom(parents, xs + ys) == ParentsFrom(ParentsFrom(parents, xs), ys)
    decreases |xs|
  {
    if xs != [] {
      assert (xs + ys)[0] == xs[0] && (xs + ys)[1..] == xs[1..] + ys;
      ParentsFromAppend(RecordParent(parents, xs[0]), xs[1..], ys);
    } else {
      assert xs + ys == ys;
    }
  }

  /** A slug has a parent entry exactly when the listing gave it one, either
      before or in `nodes`. */
  lemma {:induction false} ParentsFromKeys(parents: map<string, string>, nodes: seq<TeamNode>, slug: string)
    ensures slug in ParentsFrom(parents, nodes) <==>
      slug in parents || exists i :: 0 <= i < |nodes| && nodes[i].slug == slug && nodes[i].parentSlug.Some?
    decreases |nodes|
  {
    if nodes != [] {
      ParentsFromKeys(RecordParent(parents, nodes[0]), nodes[1..], slug);
      if exists i :: 0 <= i < |nodes| && nodes[i].slug == slug && nodes[i].parentSlug.Some? {
        var i :| 0 <= i < |nodes| && nodes[i].slug == slug && nodes[i].parentSlug.Some?;
        if i > 0 {
          assert nodes[1..][i - 1] == nodes[i];
        }
      }
      if exists i :: 0 <= i < |nodes[1..]| && nodes[1..][i].slug == slug && nodes[1..][i].parentSlug.Some? {
        var i :| 0 <= i < |nodes[1..]| && nodes[1..][i].slug == slug && nodes[1..][i].parentSlug.Some?;
        assert nodes[i + 1] == nodes[1..][i];
      }
    }
  }

  /** The parent entry of a slug that no node in `nodes` gives a parent is the
      one it had before: present exactly when it was, with the same value. */
  lemma {:induction false} ParentsFromUntouched(parents: map<string, string>, nodes: seq<TeamNode>, slug: string)
    requires forall j :: 0 <= j < |nodes| && nodes[j].slug == slug ==> nodes[j].parentSlug.None?
    ensures slug in ParentsFrom(parents, nodes) <==> slug in parents
    ensures slug in parents ==> ParentsFrom(parents, nodes)[slug] == parents[slug]
    decreases |nodes|
  {
    if nodes != [] {
      assert forall j :: 0 <= j < |nodes[1..]| ==> nodes[1..][j] == nodes[j + 1];
      ParentsFromUntouched(RecordParent(parents, nodes[0]), nodes[1..], slug);
    }
  }

  /** The last node of a slug that gives it a parent decides its entry: a
      later node for the same slug without a parent does not remove it. */
  lemma {:induction false} ParentsFromLast(parents: map<string, string>, nodes: seq<TeamNode>, i: nat)
    requires i < |nodes| && nodes[i].parentSlug.Some?
    requires forall j :: i < j < |nodes| && nodes[j].slug == nodes[i].slug ==> nodes[j].parentSlug.None?
    ensures nodes[i].slug in ParentsFrom(parents, nodes)
    ensures ParentsFrom(parents, nodes)[nodes[i].slug] == nodes[i].parentSlug.value
    decreases |nodes|
  {
    assert forall j :: 0 <= j < |nodes[1..]| ==> nodes[1..][j] == nodes[j + 1];
    if i == 0 {
      ParentsFromUntouched(RecordParent(parents, nodes[0]), nodes[1..], nodes[0].slug);
    } else {
      ParentsFromLast(RecordParent(parents, nodes[0]), nodes[1..], i - 1);
    }
  }

  /** The position, at or after `i`, of the last node of `slug` that has a parent. */
  lemma LastParentNode(nodes: seq<TeamNode>, slug: string, i: nat) returns (k: nat)
    requires i < |nodes| && nodes[i].slug == slug && nodes[i].parentSlug.Some?
    ensures i <= k < |nodes| && nodes[k].slug == slug && nodes[k].parentSlug.Some?
    ensures forall j :: k < j < |nodes| && nodes[j].slug == slug ==> nodes[j].parentSlug.None?
    decreases |nodes| - i
  {
    if exists j :: i < j < |nodes| && nodes[j].slug == slug && nodes[j].parentSlug.Some? {
      var j :| i < j < |nodes| && nodes[j].slug == slug && nodes[j].parentSlug.Some?;
      k := LastParentNode(nodes, slug, j);
    } else {
      k := i;
    }
  }

  /** Every entry of the listing's parent map comes from the last node of that
      slug that named a parent team, and carries that node's parent slug. */
  lemma ParentMapProvenance(nodes: seq<TeamNode>, slug: string)
    requires slug in ParentMap(nodes)
    ensures exists i :: 0 <= i < |nodes| && nodes[i].slug == slug && nodes[i].parentSlug == Some(ParentMap(nodes)[slug]) &&
                        forall j :: i < j < |nodes| && nodes[j].slug == slug ==> nodes[j].parentSlug.None?
  {
    ParentsFromKeys(map[], nodes, slug);
    var i :| 0 <= i < |nodes| && nodes[i].slug == slug && nodes[i].parentSlug.Some?;
    var k := LastParentNode(nodes, slug, i);
    ParentsFromLast(map[], nodes, k);
  }

  /** Fetches every page of the team listing and collects each slug and each
      parent link. A failed request aborts with its error. */
  method CollectTeams(fetch: Cursor -> Result<Page<TeamNode>>, ghost fuel: nat) returns (r: Result<TeamListing>)
    requires Finishes(fetch, None, fuel)
    ensures r == match Pages(fetch, None, fuel)
                 case Err(e) => Err(e)
                 case Ok(pages) => Ok(TeamListing(Slugs(Nodes(pages)), ParentMap(Nodes(pages))))
  {
    var cursor: Cursor := None;
    var hasNextPage := false;
    var teamSlugs: seq<string> := [];
    var teamParents: map<string, string> := map[];
    ghost var done: seq<Page<TeamNode>> := [];
    ghost var left := fuel;
    PrependNothing(Pages(fetch, None, fuel));
    while cursor.None? || hasNextPage
      invariant teamSlugs == Slugs(Nodes(done))
      invariant teamParents == ParentMap(Nodes(done))
      invariant cursor.None? || hasNextPage ==>
        Finishes(fetch, cursor, left) && Pages(fetch, None, fuel) == Prepend(done, Pages(fetch, cursor, left))
      invariant !(cursor.None? || hasNextPage) ==> Pages(fetch, None, fuel) == Ok(done)
      decreases left
    {
      Advance(Pages(fetch, None, fuel), done, fetch, cursor, left);
      var response := fetch(cursor);
      if response.Err? {
        return Err(response.error);
      }
      var page := response.value;
      cursor := Some(page.endCursor);
      hasNextPage := page.hasNextPage;
      teamSlugs, teamParents := RecordTeams(teamSlugs, teamParents, page.nodes);
      NodesAppend(done, page);
      SlugsAppend(Nodes(done), page.nodes);
      ParentsFromAppend(map[], Nodes(done), page.nodes);
      done := done + [page];
      left := left - 1;
    }
    r := Ok(TeamListing(teamSlugs, teamParents));
  }

  /** The inner loop of `CollectTeams`: appends each node's slug and records
      each node's parent link. */
  method RecordTeams(slugs: seq<string>, parents: map<string, string>, nodes: seq<TeamNode>)
    returns (slugs': seq<string>, parents': map<string, string>)
    ensures slugs' == slugs + Slugs(nodes)
    ensures parents' == ParentsFrom(parents, nodes)
  {
    slugs', parents' := slugs, parents;
    for i := 0 to |nodes|
      invariant slugs' == slugs + Slugs(nodes[..i])
      invariant parents' == ParentsFrom(parents, nodes[..i])
    {
      var teamInfo := nodes[i];
      assert nodes[..i + 1] == nodes[..i] + [teamInfo];
      SlugsAppend(nodes[..i], [teamInfo]);
      ParentsFromAppend(parents, nodes[..i], [teamInfo]);
      slugs' := slugs' + [teamInfo.slug];
      if teamInfo.parentSlug.Some? {
        parents' := parents'[teamInfo.slug := teamInfo.parentSlug.value];
      }
    }
    assert nodes[..|nodes|] == nodes;
  }

  /** The upward walk from `tip` reaches the empty slug within `steps` steps. */
  predicate Reaches(parents: map<string, string>, tip: string, steps: nat)
    decreases steps
  {
    tip == "" || (steps > 0 && Reaches(parents, Lookup(parents, tip), steps - 1))
  }

  /** No walk up the parent links goes round a cycle: from every team with a
      parent entry the walk ends within |parents| + 1 steps, the most a walk
      that never revisits a team can take. */
  predicate Acyclic(parents: map<string, string>)
  {
    forall slug :: slug in parents ==> Reaches(parents, slug, |parents| + 1)
  }

  /** The full name the walk builds from `slug`: the slug itself when it has no
      parent, otherwise its parent's full name, a `/` and the slug. */
  function FullPath(parents: map<string, string>, slug: string, steps: nat): (r: string)
    requires Reaches(parents, slug, steps)
    decreases steps
  {
    if slug == "" || Lookup(parents, slug) == "" then slug
    else FullPath(parents, Lookup(parents, slug), steps - 1) + "/" + slug
  }

  lemma ReachesFromAcyclic(parents: map<string, string>, slug: string)
    requires Acyclic(parents)
    ensures Reaches(parents, slug, |parents| + 1)
  {
    if slug !in parents {
      assert Reaches(parents, Lookup(parents, slug), |parents|);
    }
  }

  /** The full name of `slug`: the slashed path from its root team down to it. */
  function FullName(parents: map<string, string>, slug: string): (r: string)
    requires Acyclic(parents)
    ensures r == "" <==> slug == ""
    ensures |slug| <= |r| && r[|r| - |slug|..] == slug
    ensures Lookup(parents, slug) == "" ==> r == slug
  {
    ReachesFromAcyclic(parents, slug);
    FullPath(parents, slug, |parents| + 1)
  }

  /** A team that is its own parent is a cycle: its walk never ends, so no
      parent map containing it is acyclic. */
  lemma {:induction false} SelfParentNeverReaches(parents: map<string, string>, slug: string, steps: nat)
    requires slug != "" && Lookup(parents, slug) == slug
    ensures !Reaches(parents, slug, steps)
    decreases steps
  {
    if steps > 0 {
      SelfParentNeverReaches(parents, slug, steps - 1);
    }
  }

  lemma SelfParentIsCyclic(parents: map<string, string>, slug: string)
    requires slug in parents && slug != "" && parents[slug] == slug
    ensures !Acyclic(parents)
  {
    SelfParentNeverReaches(parents, slug, |parents| + 1);
  }

  /** The `/`-separated join of a non-empty list of slugs. */
  function JoinSlash(slugs: seq<string>): string
    requires |slugs| > 0
  {
    if |slugs| == 1 then slugs[0] else JoinSlash(slugs[..|slugs| - 1]) + "/" + slugs[|slugs| - 1]
  }

  /** Along a parent chain `chain[0] <- chain[1] <- ... <- chain[n-1]` whose
      first slug has no parent, the full name of the last slug is the whole
      chain joined by `/`, root first. */
  lemma {:induction false} ChainFullPath(parents: map<string, string>, chain: seq<string>, steps: nat)
    requires |chain| > 0
    requires forall i :: 0 <= i < |chain| ==> chain[i] != ""
    requires Lookup(parents, chain[0]) == ""
    requires forall i :: 0 < i < |chain| ==> Lookup(parents, chain[i]) == chain[i - 1]
    requires Reaches(parents, chain[|chain| - 1], steps)
    ensures FullPath(parents, chain[|chain| - 1], steps) == JoinSlash(chain)
    decreases |chain|
  {
    if |chain| > 1 {
      var init := chain[..|chain| - 1];
      ChainFullPath(parents, init, steps - 1);
    }
  }

  lemma ChainFullName(parents: map<string, string>, chain: seq<string>)
    requires Acyclic(parents)
    requires |chain| > 0
    requires forall i :: 0 <= i < |chain| ==> chain[i] != ""
    requires Lookup(parents, chain[0]) == ""
    requires forall i :: 0 < i < |chain| ==> Lookup(parents, chain[i]) == chain[i - 1]
    ensures FullName(parents, chain[|chain| - 1]) == JoinSlash(chain)
  {
    ReachesFromAcyclic(parents, chain[|chain| - 1]);
    ChainFullPath(parents, chain, |parents| + 1);
  }

  /** A team without a parent is named by its own slug. */
  lemma RootFullName(parents: map<string, string>, slug: string)
    requires Acyclic(parents) && slug !in parents
    ensures FullName(parents, slug) == slug
  {
    if slug != "" {
      ChainFullName(parents, [slug]);
    }
  }

  /** root -> P1 -> P2 -> T names T "root/P1/P2/T". */
  lemma NestedFullName(parents: map<string, string>)
    requires Acyclic(parents)
    requires "root" !in parents
    requires "P1" in parents && parents["P1"] == "root"
    requires "P2" in parents && parents["P2"] == "P1"
    requires "T" in parents && parents["T"] == "P2"
    ensures FullName(parents, "T") == "root/P1/P2/T"
  {
    var chain := ["root", "P1", "P2", "T"];
    ChainFullName(parents, chain);
    assert chain[..3][..2] == chain[..2] && chain[..2][..1] == chain[..1];
    assert JoinSlash(chain[..1]) == "root";
    assert JoinSlash(chain[..2]) == "root/P1";
    assert JoinSlash(chain[..3]) == "root/P1/P2";
  }

  /** A parent slug that has no parent entry of its own is still prepended,
      and the walk stops there. */
  lemma DanglingParentFullName(parents: map<string, string>, slug: string)
    requires Acyclic(parents)
    requires slug != "" && slug in parents && parents[slug] != "" && parents[slug] !in parents
    ensures FullName(parents, slug) == parents[slug] + "/" + slug
  {
    ChainFullName(parents, [parents[slug], slug]);
  }

  /** Builds the full name of every collected slug by walking its parent chain. */
  method ResolveFullnames(teamSlugs: seq<string>, teamParents: map<string, string>)
    returns (teamFullnames: map<string, string>)
    requires Acyclic(teamParents)
    ensures teamFullnames.Keys == set slug | slug in teamSlugs
    ensures forall slug :: slug in teamFullnames ==> teamFullnames[slug] == FullName(teamParents, slug)
  {
    teamFullnames := map[];
    for i := 0 to |teamSlugs|
      invariant teamFullnames.Keys == set slug | slug in teamSlugs[..i]
      invariant forall slug :: slug in teamFullnames ==> teamFullnames[slug] == FullName(teamParents, slug)
    {
      var teamSlug := teamSlugs[i];
      var full := ResolveFullname(teamSlug, teamParents);
      assert teamSlugs[..i + 1] == teamSlugs[..i] + [teamSlug];
      teamFullnames := teamFullnames[teamSlug := full];
    }
    assert teamSlugs[..|teamSlugs|] == teamSlugs;
  }

  /** The inner loop of `ResolveFullnames`: walks up from `teamSlug`,
      prepending each parent and a `/`, until a team without a parent. */
  method ResolveFullname(teamSlug: string, teamParents: map<string, string>) returns (full: string)
    requires Acyclic(teamParents)
    ensures full == FullName(teamParents, teamSlug)
  {
    full := teamSlug;
    var tip := teamSlug;
    ghost var rest := "";
    ghost var left: nat := |teamParents| + 1;
    ReachesFromAcyclic(teamParents, teamSlug);
    while tip != ""
      invariant Reaches(teamParents, tip, left)
      invariant full == tip + rest
      invariant FullName(teamParents, teamSlug) == FullPath(teamParents, tip, left) + rest
      decreases left
    {
      var parent := Lookup(teamParents, tip);
      if parent != "" {
        full := parent + "/" + full;
        rest := "/" + tip + rest;
      } else {
        rest := tip + rest;
      }
      tip := parent;
      left := left - 1;
    }
  }

  /** The parent map the listing yields has no cycle (when the listing succeeds). */
  predicate ListingAcyclic(fetch: Cursor -> Result<Page<TeamNode>>, fuel: nat)
    requires Finishes(fetch, None, fuel)
  {
    Pages(fetch, None, fuel).Ok? ==> Acyclic(ParentMap(Nodes(Pages(fetch, None, fuel).value)))
  }

  /** Lists every team and maps each listed slug to its full name. */
  method GetTeamFullnames(fetch: Cursor -> Result<Page<TeamNode>>, ghost fuel: nat)
    returns (r: Result<map<string, string>>)
    requires Finishes(fetch, None, fuel)
    requires ListingAcyclic(fetch, fuel)
    ensures Pages(fetch, None, fuel).Err? ==> r == Err(Pages(fetch, None, fuel).error)
    ensures Pages(fetch, None, fuel).Ok? ==>
      var nodes := Nodes(Pages(fetch, None, fuel).value);
      r.Ok? && r.value.Keys == set slug | slug in Slugs(nodes) &&
      forall slug :: slug in r.value ==> r.value[slug] == FullName(ParentMap(nodes), slug)
  {
    var listing := CollectTeams(fetch, fuel);
    if listing.Err? {
      return Err(listing.error);
    }
    var teamFullnames := ResolveFullnames(listing.value.slugs, listing.value.parents);
    r := Ok(teamFullnames);
  }
}
