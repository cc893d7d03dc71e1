/** Permission aggregation for one repository (`getCollaborators`): every
    collaborator's permission sources are folded, in the order the backend
    lists them, into one map from source key to permission. */
module Collaborators {
  import opened Base

  /** The organization whose repositories are examined. */
  const OrgLogin := "datawire"

  /** The key of the organization's own source, which every member has. */
  const AmbientKey := "org:" + OrgLogin

  const Admin := "ADMIN"
  const Write := "WRITE"

  /** One reason a collaborator can access the repository: the login of an
      organization, the name of the repository itself (a direct grant) or the
      slug of a team; the backend fills one field and leaves the others "". */
  datatype Source = Source(org: string, repo: string, team: string)

  datatype PermissionSource = PermissionSource(permission: string, source: Source)

  /** One collaborator with the sources the backend lists for them, in order. */
  datatype Edge = Edge(login: string, permissionSources: seq<PermissionSource>)

  /** Go's `strings.HasPrefix`. */
  predicate HasPrefix(s: string, prefix: string)
  {
    |prefix| <= |s| && s[..|prefix|] == prefix
  }

  /** The key a source is recorded under: the organization's login, the team's
      full name (empty for a slug with no full name), or the login of the
      collaborator for a direct grant; a source with no field set gets "". */
  function SourceKey(teamFullnames: map<string, string>, login: string, source: Source): (r: string)
    ensures r == "" <==> source.org == "" && source.team == "" && source.repo == ""
  {
    if source.org != "" then "org:" + source.org
    else if source.team != "" then "team:" + Lookup(teamFullnames, source.team)
    else if source.repo != "" then "user:" + login
    else ""
  }

  /** How each kind of source is keyed. Only the organization's own source gets
      the ambient key, and only team sources get team-scoped keys. */
  lemma KeyClassification(teamFullnames: map<string, string>, login: string, source: Source)
    ensures SourceKey(teamFullnames, login, source) == AmbientKey <==> source.org == OrgLogin
    ensures HasPrefix(SourceKey(teamFullnames, login, source), "team:") <==> source.org == "" && source.team != ""
    ensures source.org == "" && source.team != "" && source.team !in teamFullnames ==>
      SourceKey(teamFullnames, login, source) == "team:"
    ensures source.org == "" && source.team == "" && source.repo != "" ==>
      SourceKey(teamFullnames, login, source) == "user:" + login
    ensures source.org == "" && source.team == "" && source.repo == "" ==>
      SourceKey(teamFullnames, login, source) == ""
  {
    var key := SourceKey(teamFullnames, login, source);
    if source.org != "" {
      assert key[..4] == "org:" && key[4..] == source.org;
      assert key[0] == 'o';
    } else if source.team != "" {
      assert key[0] == 't' && key[..5] == "team:";
    } else if source.repo != "" {
      assert key[0] == 'u';
    }
  }

  /** Go's condition for settling a WRITE/ADMIN disagreement. `&&` binds tighter
      than `||`, so ADMIN followed by WRITE is settled for any key, while WRITE
      followed by ADMIN is settled only for team keys. */
  predicate Reconcilable(key: string, existing: string, incoming: string)
    ensures Reconcilable(key, existing, incoming) ==> existing != incoming && {existing, incoming} == {Write, Admin}
    ensures !HasPrefix(key, "team:") ==> (Reconcilable(key, existing, incoming) <==> existing == Admin && incoming == Write)
  {
    (HasPrefix(key, "team:") && existing == Write && incoming == Admin) ||
    (existing == Admin && incoming == Write)
  }

  /** Records `permission` under `key`. A new key is stored, an equal value
      changes nothing, a reconcilable WRITE/ADMIN pair becomes ADMIN, and any
      other disagreement fails with the repository, key and both values. */
  function Merge(reponame: string, ret: map<string, string>, key: string, permission: string)
    : (r: Result<map<string, string>>)
    ensures r.Err? <==> key in ret && ret[key] != permission && !Reconcilable(key, ret[key], permission)
    ensures r.Err? ==> r.error == Mismatch(reponame, key, ret[key], permission)
    ensures r.Ok? ==> r.value.Keys == ret.Keys + {key}
    ensures r.Ok? ==> forall k :: k in ret && k != key ==> r.value[k] == ret[k]
    ensures r.Ok? && key !in ret ==> r.value[key] == permission
    ensures r.Ok? && key in ret ==> r.value[key] == (if ret[key] == permission then permission else Admin)
  {
    if key in ret && ret[key] != permission then
      if Reconcilable(key, ret[key], permission) then Ok(ret[key := Admin])
      else Err(Mismatch(reponame, key, ret[key], permission))
    else Ok(ret[key := permission])
  }

  /** Merging a pair a second time changes nothing. */
  lemma MergeIdempotent(reponame: string, ret: map<string, string>, key: string, permission: string)
    requires Merge(reponame, ret, key, permission).Ok?
    ensures Merge(reponame, Merge(reponame, ret, key, permission).value, key, permission)
         == Merge(reponame, ret, key, permission)
  {
    var m := Merge(reponame, ret, key, permission).value;
    assert m[key := m[key]] == m;
  }

  /** The state of the scan over one collaborator's sources: the map shared by
      all collaborators of the repository, whether this collaborator has been
      seen to own the organization, and the keys whose first ADMIN was dropped. */
  datatype Scan = Scan(ret: map<string, string>, isOrgOwner: bool, skippedSources: set<string>)

  /** One source of collaborator `login`. */
  function Visit(teamFullnames: map<string, string>, reponame: string, login: string,
                 scan: Scan, ps: PermissionSource): (r: Result<Scan>)
    ensures r.Err? ==> r.error.Mismatch? && r.error.reponame == reponame
    ensures r.Ok? ==> (r.value.isOrgOwner <==> scan.isOrgOwner || IsOwnerGrant(teamFullnames, login, ps))
    ensures r.Ok? ==> scan.skippedSources <= r.value.skippedSources
    ensures r.Ok? ==> scan.ret.Keys <= r.value.ret.Keys
    ensures r.Ok? && AmbientKey !in scan.ret ==> AmbientKey !in r.value.ret
    ensures r.Ok? ==> r.value.ret.Values <= scan.ret.Values + {ps.permission}
  {
    var key := SourceKey(teamFullnames, login, ps.source);
    if key == AmbientKey then
      Ok(scan.(isOrgOwner := scan.isOrgOwner || ps.permission == Admin))
    else if scan.isOrgOwner && key !in scan.skippedSources && ps.permission == Admin then
      Ok(scan.(skippedSources := scan.skippedSources + {key}))
    else
      match Merge(reponame, scan.ret, key, ps.permission)
      case Err(e) => Err(e)
      case Ok(ret) => Ok(scan.(ret := ret))
  }

  /** Scans `sources` in order from `scan`; the first conflict aborts. */
  function VisitAll(teamFullnames: map<string, string>, reponame: string, login: string,
                    scan: Scan, sources: seq<PermissionSource>): (r: Result<Scan>)
    ensures r.Err? ==> r.error.Mismatch? && r.error.reponame == reponame
    ensures r.Ok? ==> (r.value.isOrgOwner <==>
      scan.isOrgOwner || exists i :: 0 <= i < |sources| && IsOwnerGrant(teamFullnames, login, sources[i]))
    ensures r.Ok? ==> scan.skippedSources <= r.value.skippedSources
    decreases |sources|
  {
    if sources == [] then Ok(scan)
    else
      assert forall i :: 0 < i < |sources| ==> sources[1..][i - 1] == sources[i];
      match Visit(teamFullnames, reponame, login, scan, sources[0])
      case Err(e) => Err(e)
      case Ok(next) => VisitAll(teamFullnames, reponame, login, next, sources[1..])
  }

  /** Folds every collaborator into `ret`; each collaborator starts as a
      non-owner with nothing skipped. */
  function AggregateFrom(teamFullnames: map<string, string>, reponame: string,
                         ret: map<string, string>, edges: seq<Edge>): (r: Result<map<string, string>>)
    ensures r.Err? ==> r.error.Mismatch? && r.error.reponame == reponame
    decreases |edges|
  {
    if edges == [] then Ok(ret)
    else
      match VisitAll(teamFullnames, reponame, edges[0].login, Scan(ret, false, {}), edges[0].permissionSources)
      case Err(e) => Err(e)
      case Ok(scan) => AggregateFrom(teamFullnames, reponame, scan.ret, edges[1..])
  }

  /** The permission map of a repository whose collaborators are `edges`. */
  function Aggregate(teamFullnames: map<string, string>, reponame: string, edges: seq<Edge>)
    : (r: Result<map<string, string>>)
    ensures r.Err? ==> r.error.Mismatch? && r.error.reponame == reponame
  {
    AggregateFrom(teamFullnames, reponame, map[], edges)
  }

  /** Scanning `xs + ys` is scanning `xs`, then `ys` from where `xs` ended. */
  lemma {:induction false} VisitAllAppend(teamFullnames: map<string, string>, reponame: string, login: string,
                                          scan: Scan, xs: seq<PermissionSource>, ys: seq<PermissionSource>)
    ensures VisitAll(teamFullnames, reponame, login, scan, xs + ys)
         == match VisitAll(teamFullnames, reponame, login, scan, xs)
            case Err(e) => Err(e)
            case Ok(mid) => VisitAll(teamFullnames, reponame, login, mid, ys)
    decreases |xs|
  {
    if xs == [] {
      assert xs + ys == ys;
    } else {
      assert (xs + ys)[0] == xs[0] && (xs + ys)[1..] == xs[1..] + ys;
      var visited := Visit(teamFullnames, reponame, login, scan, xs[0]);
      if visited.Ok? {
        VisitAllAppend(teamFullnames, reponame, login, visited.value, xs[1..], ys);
      }
    }
  }

  /** The permissions `sources` grant. */
  function Granted(sources: seq<PermissionSource>): set<string>
  {
    set ps | ps in sources :: ps.permission
  }

  /** The permissions any source of any collaborator grants. */
  function GrantedAll(edges: seq<Edge>): set<string>
    decreases |edges|
  {
    if edges == [] then {} else Granted(edges[0].permissionSources) + GrantedAll(edges[1..])
  }

  /** What scanning one collaborator guarantees: no key is removed, the ambient
      key is never recorded, and every value is one already there or one of
      the collaborator's own permissions. */
  lemma {:induction false} VisitAllInvariant(teamFullnames: map<string, string>, reponame: string, login: string,
                                             scan: Scan, sources: seq<PermissionSource>)
    requires VisitAll(teamFullnames, reponame, login, scan, sources).Ok?
    ensures var ret := VisitAll(teamFullnames, reponame, login, scan, sources).value.ret;
      scan.ret.Keys <= ret.Keys &&
      (AmbientKey !in scan.ret ==> AmbientKey !in ret) &&
      ret.Values <= scan.ret.Values + Granted(sources)
    decreases |sources|
  {
    if sources != [] {
      var next := Visit(teamFullnames, reponame, login, scan, sources[0]).value;
      VisitAllInvariant(teamFullnames, reponame, login, next, sources[1..]);
      assert sources[0] in sources;
      assert Granted(sources[1..]) <= Granted(sources) by {
        forall ps | ps in sources[1..] ensures ps in sources { }
      }
    }
  }

  /** What aggregating a repository guarantees: the ambient organization key
      never appears in the result whatever permission it came with, no key
      is ever removed, and every value was granted by some source. */
  lemma {:induction false} AggregateInvariant(teamFullnames: map<string, string>, reponame: string,
                                              ret: map<string, string>, edges: seq<Edge>)
    requires AggregateFrom(teamFullnames, reponame, ret, edges).Ok?
    ensures var result := AggregateFrom(teamFullnames, reponame, ret, edges).value;
      ret.Keys <= result.Keys &&
      (AmbientKey !in ret ==> AmbientKey !in result) &&
      result.Values <= ret.Values + GrantedAll(edges)
    decreases |edges|
  {
    if edges != [] {
      var scan := VisitAll(teamFullnames, reponame, edges[0].login, Scan(ret, false, {}), edges[0].permissionSources).value;
      VisitAllInvariant(teamFullnames, reponame, edges[0].login, Scan(ret, false, {}), edges[0].permissionSources);
      AggregateInvariant(teamFullnames, reponame, scan.ret, edges[1..]);
    }
  }

  /** The ambient organization key never appears in a repository's map. */
  lemma AmbientNeverRecorded(teamFullnames: map<string, string>, reponame: string, edges: seq<Edge>)
    requires Aggregate(teamFullnames, reponame, edges).Ok?
    ensures AmbientKey !in Aggregate(teamFullnames, reponame, edges).value
  {
    AggregateInvariant(teamFullnames, reponame, map[], edges);
  }

  /** Is `ps` the organization's own source with ADMIN, which makes its
      collaborator an owner? */
  predicate IsOwnerGrant(teamFullnames: map<string, string>, login: string, ps: PermissionSource)
  {
    SourceKey(teamFullnames, login, ps.source) == AmbientKey && ps.permission == Admin
  }

  /** Reference for a collaborator who is not an owner: every source except the
      ambient one is merged, in order, and none is dropped. */
  function MergeAll(teamFullnames: map<string, string>, reponame: string, login: string,
                    ret: map<string, string>, sources: seq<PermissionSource>): Result<map<string, string>>
    decreases |sources|
  {
    if sources == [] then Ok(ret)
    else
      var key := SourceKey(teamFullnames, login, sources[0].source);
      if key == AmbientKey then MergeAll(teamFullnames, reponame, login, ret, sources[1..])
      else
        match Merge(reponame, ret, key, sources[0].permission)
        case Err(e) => Err(e)
        case Ok(m) => MergeAll(teamFullnames, reponame, login, m, sources[1..])
  }

  /** Until the organization's own ADMIN source is seen, the scan merges every
      source: none is suppressed and the owner flag stays down. */
  lemma {:induction false} NonOwnerMergesEverySource(teamFullnames: map<string, string>, reponame: string, login: string,
                                                     ret: map<string, string>, skipped: set<string>,
                                                     sources: seq<PermissionSource>)
    requires forall i :: 0 <= i < |sources| ==> !IsOwnerGrant(teamFullnames, login, sources[i])
    ensures VisitAll(teamFullnames, reponame, login, Scan(ret, false, skipped), sources)
         == match MergeAll(teamFullnames, reponame, login, ret, sources)
            case Err(e) => Err(e)
            case Ok(merged) => Ok(Scan(merged, false, skipped))
    decreases |sources|
  {
    if sources != [] {
      assert !IsOwnerGrant(teamFullnames, login, sources[0]);
      var key := SourceKey(teamFullnames, login, sources[0].source);
      if key == AmbientKey {
        NonOwnerMergesEverySource(teamFullnames, reponame, login, ret, skipped, sources[1..]);
      } else {
        var merged := Merge(reponame, ret, key, sources[0].permission);
        if merged.Ok? {
          NonOwnerMergesEverySource(teamFullnames, reponame, login, merged.value, skipped, sources[1..]);
        }
      }
    }
  }

  /** Sources listed before a collaborator's organization ADMIN source are
      never suppressed: they are merged exactly as for a non-owner. */
  lemma {:induction false} SourcesBeforeOwnershipMerged(teamFullnames: map<string, string>, reponame: string, login: string,
                                     ret: map<string, string>, before: seq<PermissionSource>,
                                     after: seq<PermissionSource>)
    requires forall i :: 0 <= i < |before| ==> !IsOwnerGrant(teamFullnames, login, before[i])
    ensures VisitAll(teamFullnames, reponame, login, Scan(ret, false, {}), before + after)
         == match MergeAll(teamFullnames, reponame, login, ret, before)
            case Err(e) => Err(e)
            case Ok(merged) => VisitAll(teamFullnames, reponame, login, Scan(merged, false, {}), after)
  {
    VisitAllAppend(teamFullnames, reponame, login, Scan(ret, false, {}), before, after);
    NonOwnerMergesEverySource(teamFullnames, reponame, login, ret, {}, before);
  }

  /** Once a collaborator is an owner, ADMIN sources with distinct keys not yet
      skipped are all dropped: the shared map is left as it was. */
  lemma {:induction false} OwnerAdminsDropped(teamFullnames: map<string, string>, reponame: string, login: string,
                                              scan: Scan, sources: seq<PermissionSource>)
    requires scan.isOrgOwner
    requires forall i :: 0 <= i < |sources| ==> sources[i].permission == Admin
    requires forall i :: 0 <= i < |sources| ==>
      var key := SourceKey(teamFullnames, login, sources[i].source);
      key != AmbientKey && key !in scan.skippedSources
    requires forall i, j :: 0 <= i < j < |sources| ==>
      SourceKey(teamFullnames, login, sources[i].source) != SourceKey(teamFullnames, login, sources[j].source)
    ensures VisitAll(teamFullnames, reponame, login, scan, sources).Ok?
    ensures VisitAll(teamFullnames, reponame, login, scan, sources).value.ret == scan.ret
    decreases |sources|
  {
    if sources != [] {
      var key := SourceKey(teamFullnames, login, sources[0].source);
      var next := scan.(skippedSources := scan.skippedSources + {key});
      assert Visit(teamFullnames, reponame, login, scan, sources[0]) == Ok(next);
      forall i | 0 <= i < |sources[1..]|
        ensures SourceKey(teamFullnames, login, sources[1..][i].source) !in next.skippedSources
      {
        assert sources[1..][i] == sources[i + 1];
      }
      OwnerAdminsDropped(teamFullnames, reponame, login, next, sources[1..]);
    }
  }

  /** A collaborator whose first source is the organization's ADMIN and whose
      other sources are ADMIN under distinct keys adds nothing to the map. */
  lemma OwnerAddsNothing(teamFullnames: map<string, string>, reponame: string, login: string,
                         ret: map<string, string>, sources: seq<PermissionSource>)
    requires forall i :: 0 <= i < |sources| ==> sources[i].permission == Admin
    requires forall i :: 0 <= i < |sources| ==> SourceKey(teamFullnames, login, sources[i].source) != AmbientKey
    requires forall i, j :: 0 <= i < j < |sources| ==>
      SourceKey(teamFullnames, login, sources[i].source) != SourceKey(teamFullnames, login, sources[j].source)
    ensures AggregateFrom(teamFullnames, reponame, ret,
              [Edge(login, [PermissionSource(Admin, Source(OrgLogin, "", ""))] + sources)]) == Ok(ret)
  {
    var ambient := PermissionSource(Admin, Source(OrgLogin, "", ""));
    var all := [ambient] + sources;
    assert all[0] == ambient && all[1..] == sources;
    var owner := Scan(ret, true, {});
    assert Visit(teamFullnames, reponame, login, Scan(ret, false, {}), ambient) == Ok(owner);
    OwnerAdminsDropped(teamFullnames, reponame, login, owner, sources);
    var edges := [Edge(login, all)];
    assert edges[1..] == [];
  }

  /** Plain merging of `xs + ys` is merging `xs`, then `ys` into the result. */
  lemma {:induction false} MergeAllAppend(teamFullnames: map<string, string>, reponame: string, login: string,
                                          ret: map<string, string>, xs: seq<PermissionSource>, ys: seq<PermissionSource>)
    ensures MergeAll(teamFullnames, reponame, login, ret, xs + ys)
         == match MergeAll(teamFullnames, reponame, login, ret, xs)
            case Err(e) => Err(e)
            case Ok(m) => MergeAll(teamFullnames, reponame, login, m, ys)
    decreases |xs|
  {
    if xs == [] {
      assert xs + ys == ys;
    } else {
      assert (xs + ys)[0] == xs[0] && (xs + ys)[1..] == xs[1..] + ys;
      var key := SourceKey(teamFullnames, login, xs[0].source);
      if key == AmbientKey {
        MergeAllAppend(teamFullnames, reponame, login, ret, xs[1..], ys);
      } else {
        var merged := Merge(reponame, ret, key, xs[0].permission);
        if merged.Ok? {
          MergeAllAppend(teamFullnames, reponame, login, merged.value, xs[1..], ys);
        }
      }
    }
  }

  /** Is source `i` one an owner's scan drops? It grants ADMIN under a key other
      than the ambient one, that key was not skipped when the scan began, and no
      earlier ADMIN source of the collaborator has the same key. */
  predicate FirstOwnerAdmin(teamFullnames: map<string, string>, login: string, skipped: set<string>,
                            sources: seq<PermissionSource>, i: nat)
  {
    i < |sources| && sources[i].permission == Admin &&
    SourceKey(teamFullnames, login, sources[i].source) != AmbientKey &&
    SourceKey(teamFullnames, login, sources[i].source) !in skipped &&
    forall j :: 0 <= j < i && sources[j].permission == Admin ==>
      SourceKey(teamFullnames, login, sources[j].source) != SourceKey(teamFullnames, login, sources[i].source)
  }

  /** The sources an owner's scan keeps: all of them, in order, except each
      `FirstOwnerAdmin`. */
  function OwnerKept(teamFullnames: map<string, string>, login: string, skipped: set<string>,
                     sources: seq<PermissionSource>): seq<PermissionSource>
    decreases |sources|
  {
    if sources == [] then []
    else
      var n := |sources| - 1;
      OwnerKept(teamFullnames, login, skipped, sources[..n])
        + (if FirstOwnerAdmin(teamFullnames, login, skipped, sources, n) then [] else [sources[n]])
  }

  /** The keys, other than the ambient one, under which `sources` grant ADMIN. */
  function AdminKeys(teamFullnames: map<string, string>, login: string, sources: seq<PermissionSource>): set<string>
  {
    set i | 0 <= i < |sources| && sources[i].permission == Admin &&
            SourceKey(teamFullnames, login, sources[i].source) != AmbientKey
      :: SourceKey(teamFullnames, login, sources[i].source)
  }

  /** Extending a list by one source adds that source's key to `AdminKeys` if
      it grants ADMIN, and decides whether it is dropped from what came before. */
  lemma AdminKeysSnoc(teamFullnames: map<string, string>, login: string, skipped: set<string>,
                      init: seq<PermissionSource>, last: PermissionSource)
    ensures var key := SourceKey(teamFullnames, login, last.source);
      AdminKeys(teamFullnames, login, init + [last])
        == AdminKeys(teamFullnames, login, init) + (if last.permission == Admin && key != AmbientKey then {key} else {})
    ensures FirstOwnerAdmin(teamFullnames, login, skipped, init + [last], |init|) <==>
      last.permission == Admin && SourceKey(teamFullnames, login, last.source) != AmbientKey &&
      SourceKey(teamFullnames, login, last.source) !in skipped + AdminKeys(teamFullnames, login, init)
  {
    var all := init + [last];
    assert forall j :: 0 <= j < |init| ==> all[j] == init[j];
    assert all[|init|] == last;
    var key := SourceKey(teamFullnames, login, last.source);
    if key in AdminKeys(teamFullnames, login, init) {
      var j :| 0 <= j < |init| && init[j].permission == Admin &&
               SourceKey(teamFullnames, login, init[j].source) != AmbientKey &&
               SourceKey(teamFullnames, login, init[j].source) == key;
      assert all[j] == init[j];
    }
  }

  /** The prefix of an owner's kept sources is what is kept of the prefix. */
  lemma OwnerKeptSnoc(teamFullnames: map<string, string>, login: string, skipped: set<string>,
                      init: seq<PermissionSource>, last: PermissionSource)
    ensures OwnerKept(teamFullnames, login, skipped, init + [last])
         == OwnerKept(teamFullnames, login, skipped, init)
            + (if FirstOwnerAdmin(teamFullnames, login, skipped, init + [last], |init|) then [] else [last])
  {
    assert (init + [last])[..|init|] == init;
  }

  /** What an owner's scan does: each ADMIN source whose key is neither the
      ambient one, nor already skipped, nor seen with ADMIN earlier in the list
      is dropped and its key joins the skipped set; every other source,
      non-ADMIN ones included, is merged in order exactly as `MergeAll` does,
      and the owner flag stays up. The first conflict aborts. */
  lemma {:induction false} OwnerScan(teamFullnames: map<string, string>, reponame: string, login: string,
                                     ret: map<string, string>, skipped: set<string>, sources: seq<PermissionSource>)
    ensures VisitAll(teamFullnames, reponame, login, Scan(ret, true, skipped), sources)
         == match MergeAll(teamFullnames, reponame, login, ret, OwnerKept(teamFullnames, login, skipped, sources))
            case Err(e) => Err(e)
            case Ok(m) => Ok(Scan(m, true, skipped + AdminKeys(teamFullnames, login, sources)))
    decreases |sources|
  {
    if sources == [] {
      assert AdminKeys(teamFullnames, login, sources) == {};
      assert skipped + {} == skipped;
    } else {
      var n := |sources| - 1;
      var init, last := sources[..n], sources[n];
      assert sources == init + [last];
      var key := SourceKey(teamFullnames, login, last.source);
      OwnerScan(teamFullnames, reponame, login, ret, skipped, init);
      VisitAllAppend(teamFullnames, reponame, login, Scan(ret, true, skipped), init, [last]);
      AdminKeysSnoc(teamFullnames, login, skipped, init, last);
      OwnerKeptSnoc(teamFullnames, login, skipped, init, last);
      var kept := OwnerKept(teamFullnames, login, skipped, init);
      var dropped := FirstOwnerAdmin(teamFullnames, login, skipped, sources, n);
      MergeAllAppend(teamFullnames, reponame, login, ret, kept, if dropped then [] else [last]);
      var mid := MergeAll(teamFullnames, reponame, login, ret, kept);
      if mid.Ok? {
        var seen := skipped + AdminKeys(teamFullnames, login, init);
        VisitAllOne(teamFullnames, reponame, login, Scan(mid.value, true, seen), last);
        assert [last][1..] == [];
        assert kept + [] == kept;
        var adminKeys := AdminKeys(teamFullnames, login, sources);
        if key == AmbientKey {
          assert !dropped && adminKeys == AdminKeys(teamFullnames, login, init);
          assert MergeAll(teamFullnames, reponame, login, mid.value, [last]) == Ok(mid.value);
          assert Visit(teamFullnames, reponame, login, Scan(mid.value, true, seen), last) == Ok(Scan(mid.value, true, seen));
        } else if last.permission == Admin && key !in seen {
          assert dropped && skipped + adminKeys == seen + {key};
          assert Visit(teamFullnames, reponame, login, Scan(mid.value, true, seen), last)
              == Ok(Scan(mid.value, true, seen + {key}));
        } else {
          assert !dropped && skipped + adminKeys == seen;
          var merged := Merge(reponame, mid.value, key, last.permission);
          assert MergeAll(teamFullnames, reponame, login, mid.value, [last])
              == match merged case Err(e) => Err(e) case Ok(m) => Ok(m);
        }
      }
    }
  }

  /** An owner's scan keeps every source when none of them grants ADMIN. */
  lemma {:induction false} OwnerKeepsNonAdmin(teamFullnames: map<string, string>, login: string,
                                              skipped: set<string>, sources: seq<PermissionSource>)
    requires forall i :: 0 <= i < |sources| ==> sources[i].permission != Admin
    ensures OwnerKept(teamFullnames, login, skipped, sources) == sources
    decreases |sources|
  {
    if sources != [] {
      var n := |sources| - 1;
      OwnerKeepsNonAdmin(teamFullnames, login, skipped, sources[..n]);
      assert sources[..n] + [sources[n]] == sources;
    }
  }

  /** One collaborator's whole scan, split at the first organization ADMIN
      source: the sources before it are merged as for a non-owner, the
      organization source itself is not recorded, and the sources after it are
      scanned as an owner's, starting with nothing skipped. */
  lemma {:induction false} OwnershipSplit(teamFullnames: map<string, string>, reponame: string, login: string,
                       ret: map<string, string>, before: seq<PermissionSource>, grant: PermissionSource,
                       after: seq<PermissionSource>)
    requires forall i :: 0 <= i < |before| ==> !IsOwnerGrant(teamFullnames, login, before[i])
    requires IsOwnerGrant(teamFullnames, login, grant)
    ensures VisitAll(teamFullnames, reponame, login, Scan(ret, false, {}), before + [grant] + after)
         == match MergeAll(teamFullnames, reponame, login, ret, before)
            case Err(e) => Err(e)
            case Ok(m) =>
              match MergeAll(teamFullnames, reponame, login, m, OwnerKept(teamFullnames, login, {}, after))
              case Err(e) => Err(e)
              case Ok(m') => Ok(Scan(m', true, AdminKeys(teamFullnames, login, after)))
  {
    assert before + [grant] + after == before + ([grant] + after);
    SourcesBeforeOwnershipMerged(teamFullnames, reponame, login, ret, before, [grant] + after);
    var merged := MergeAll(teamFullnames, reponame, login, ret, before);
    if merged.Ok? {
      assert ([grant] + after)[0] == grant && ([grant] + after)[1..] == after;
      OwnerScan(teamFullnames, reponame, login, merged.value, {}, after);
      assert {} + AdminKeys(teamFullnames, login, after) == AdminKeys(teamFullnames, login, after);
    }
  }

  lemma VisitAllOne(teamFullnames: map<string, string>, reponame: string, login: string,
                    scan: Scan, a: PermissionSource)
    ensures VisitAll(teamFullnames, reponame, login, scan, [a]) == Visit(teamFullnames, reponame, login, scan, a)
  {
    assert [a][1..] == [];
  }

  lemma VisitAllTwo(teamFullnames: map<string, string>, reponame: string, login: string,
                    scan: Scan, a: PermissionSource, b: PermissionSource)
    ensures VisitAll(teamFullnames, reponame, login, scan, [a, b])
         == if Visit(teamFullnames, reponame, login, scan, a).Err? then Visit(teamFullnames, reponame, login, scan, a)
            else Visit(teamFullnames, reponame, login, Visit(teamFullnames, reponame, login, scan, a).value, b)
  {
    assert [a, b][1..] == [b];
    var first := Visit(teamFullnames, reponame, login, scan, a);
    if first.Ok? {
      VisitAllOne(teamFullnames, reponame, login, first.value, b);
    }
  }

  lemma AggregateOne(teamFullnames: map<string, string>, reponame: string, ret: map<string, string>, edge: Edge)
    ensures AggregateFrom(teamFullnames, reponame, ret, [edge])
         == match VisitAll(teamFullnames, reponame, edge.login, Scan(ret, false, {}), edge.permissionSources)
            case Err(e) => Err(e)
            case Ok(scan) => Ok(scan.ret)
  {
    assert [edge][1..] == [];
  }

  /** Aggregating `es1 + es2` is aggregating `es1`, then `es2` into the map it
      produced: the map is shared by all collaborators, and nothing else of one
      collaborator's scan (owner flag, skipped keys) reaches the next. */
  lemma {:induction false} AggregateAppend(teamFullnames: map<string, string>, reponame: string,
                                           ret: map<string, string>, es1: seq<Edge>, es2: seq<Edge>)
    ensures AggregateFrom(teamFullnames, reponame, ret, es1 + es2)
         == match AggregateFrom(teamFullnames, reponame, ret, es1)
            case Err(e) => Err(e)
            case Ok(m) => AggregateFrom(teamFullnames, reponame, m, es2)
    decreases |es1|
  {
    if es1 == [] {
      assert es1 + es2 == es2;
    } else {
      assert (es1 + es2)[0] == es1[0] && (es1 + es2)[1..] == es1[1..] + es2;
      var scan := VisitAll(teamFullnames, reponame, es1[0].login, Scan(ret, false, {}), es1[0].permissionSources);
      if scan.Ok? {
        AggregateAppend(teamFullnames, reponame, scan.value.ret, es1[1..], es2);
      }
    }
  }

  /** An owner's second ADMIN under the same key is merged, not dropped: from
      any map, the organization's ADMIN followed by two ADMIN grants under one
      key is exactly one merge of ADMIN under that key, which fails when the
      key holds a value that cannot be settled with ADMIN. */
  lemma RepeatedOwnerAdminMerged(teamFullnames: map<string, string>, reponame: string, login: string,
                                 ret: map<string, string>, source: Source)
    requires SourceKey(teamFullnames, login, source) != AmbientKey
    ensures AggregateFrom(teamFullnames, reponame, ret,
              [Edge(login, [PermissionSource(Admin, Source(OrgLogin, "", "")),
                            PermissionSource(Admin, source),
                            PermissionSource(Admin, source)])])
         == Merge(reponame, ret, SourceKey(teamFullnames, login, source), Admin)
  {
    var key := SourceKey(teamFullnames, login, source);
    var ambient := PermissionSource(Admin, Source(OrgLogin, "", ""));
    var admin := PermissionSource(Admin, source);
    var all := [ambient, admin, admin];
    assert all[1..] == [admin, admin];
    var owner := Scan(ret, true, {});
    assert Visit(teamFullnames, reponame, login, Scan(ret, false, {}), ambient) == Ok(owner);
    assert {} + {key} == {key};
    assert Visit(teamFullnames, reponame, login, owner, admin) == Ok(Scan(ret, true, {key}));
    VisitAllTwo(teamFullnames, reponame, login, owner, admin, admin);
    AggregateOne(teamFullnames, reponame, ret, Edge(login, all));
  }

  /** The owner flag and the skipped keys are per collaborator: whatever the
      first collaborator is (an owner included, or one whose own ADMIN under the
      same key was dropped), the next collaborator's ADMIN is merged into the
      map the first one left. */
  lemma OwnerFlagPerCollaborator(teamFullnames: map<string, string>, reponame: string,
                                 ret: map<string, string>, first: Edge, other: string, source: Source)
    requires SourceKey(teamFullnames, other, source) != AmbientKey
    ensures AggregateFrom(teamFullnames, reponame, ret, [first, Edge(other, [PermissionSource(Admin, source)])])
         == match AggregateFrom(teamFullnames, reponame, ret, [first])
            case Err(e) => Err(e)
            case Ok(m) => Merge(reponame, m, SourceKey(teamFullnames, other, source), Admin)
  {
    var admin := PermissionSource(Admin, source);
    var second := Edge(other, [admin]);
    AggregateAppend(teamFullnames, reponame, ret, [first], [second]);
    assert [first] + [second] == [first, second];
    var m := AggregateFrom(teamFullnames, reponame, ret, [first]);
    if m.Ok? {
      VisitAllOne(teamFullnames, reponame, other, Scan(m.value, false, {}), admin);
      AggregateOne(teamFullnames, reponame, m.value, second);
    }
  }

  /** For a team key, WRITE and ADMIN settle on ADMIN in either order. */
  lemma TeamWriteAdminEitherOrder(teamFullnames: map<string, string>, reponame: string, login: string,
                                  ret: map<string, string>, team: Source)
    requires team.org == "" && team.team != ""
    requires SourceKey(teamFullnames, login, team) !in ret
    ensures VisitAll(teamFullnames, reponame, login, Scan(ret, false, {}),
                     [PermissionSource(Write, team), PermissionSource(Admin, team)])
         == Ok(Scan(ret[SourceKey(teamFullnames, login, team) := Admin], false, {}))
    ensures VisitAll(teamFullnames, reponame, login, Scan(ret, false, {}),
                     [PermissionSource(Admin, team), PermissionSource(Write, team)])
         == Ok(Scan(ret[SourceKey(teamFullnames, login, team) := Admin], false, {}))
  {
    KeyClassification(teamFullnames, login, team);
    var key := SourceKey(teamFullnames, login, team);
    var write, admin := PermissionSource(Write, team), PermissionSource(Admin, team);
    assert ret[key := Write][key := Admin] == ret[key := Admin];
    assert ret[key := Admin][key := Admin] == ret[key := Admin];
    VisitAllTwo(teamFullnames, reponame, login, Scan(ret, false, {}), write, admin);
    VisitAllTwo(teamFullnames, reponame, login, Scan(ret, false, {}), admin, write);
  }

  /** Because of the operator precedence, ADMIN followed by WRITE settles on
      ADMIN for any key, a direct grant's included. */
  lemma AdminThenWriteAnyKey(teamFullnames: map<string, string>, reponame: string, login: string,
                             ret: map<string, string>, source: Source)
    requires SourceKey(teamFullnames, login, source) != AmbientKey
    requires SourceKey(teamFullnames, login, source) !in ret
    ensures VisitAll(teamFullnames, reponame, login, Scan(ret, false, {}),
                     [PermissionSource(Admin, source), PermissionSource(Write, source)])
         == Ok(Scan(ret[SourceKey(teamFullnames, login, source) := Admin], false, {}))
  {
    var key := SourceKey(teamFullnames, login, source);
    assert ret[key := Admin][key := Admin] == ret[key := Admin];
    VisitAllTwo(teamFullnames, reponame, login, Scan(ret, false, {}),
                PermissionSource(Admin, source), PermissionSource(Write, source));
  }

  /** WRITE followed by ADMIN on a key that is not a team's is a conflict. */
  lemma WriteThenAdminOffTeamConflicts(teamFullnames: map<string, string>, reponame: string, login: string,
                                       ret: map<string, string>, source: Source)
    requires !(source.org == "" && source.team != "")
    requires SourceKey(teamFullnames, login, source) != AmbientKey
    requires SourceKey(teamFullnames, login, source) !in ret
    ensures VisitAll(teamFullnames, reponame, login, Scan(ret, false, {}),
                     [PermissionSource(Write, source), PermissionSource(Admin, source)])
         == Err(Mismatch(reponame, SourceKey(teamFullnames, login, source), Write, Admin))
  {
    KeyClassification(teamFullnames, login, source);
    VisitAllTwo(teamFullnames, reponame, login, Scan(ret, false, {}),
                PermissionSource(Write, source), PermissionSource(Admin, source));
  }

  /** Two direct grants READ then WRITE abort the repository with an error that
      names the repository, the user key and both values. */
  lemma DirectGrantConflict(teamFullnames: map<string, string>, reponame: string, login: string,
                            repo: string, repo': string)
    requires repo != "" && repo' != ""
    ensures Aggregate(teamFullnames, reponame,
              [Edge(login, [PermissionSource("READ", Source("", repo, "")),
                            PermissionSource("WRITE", Source("", repo', ""))])])
         == Err(Mismatch(reponame, "user:" + login, "READ", "WRITE"))
  {
    var read, write := PermissionSource("READ", Source("", repo, "")), PermissionSource("WRITE", Source("", repo', ""));
    var key := "user:" + login;
    assert key[0] == 'u';
    assert !HasPrefix(key, "team:") && key != AmbientKey;
    assert SourceKey(teamFullnames, login, read.source) == key == SourceKey(teamFullnames, login, write.source);
    VisitAllTwo(teamFullnames, reponame, login, Scan(map[], false, {}), read, write);
    AggregateOne(teamFullnames, reponame, map[], Edge(login, [read, write]));
  }

  /** Scanning the same source twice in a row is scanning it once, except for
      the first ADMIN of an owner, which is dropped. */
  lemma VisitTwice(teamFullnames: map<string, string>, reponame: string, login: string,
                   scan: Scan, ps: PermissionSource)
    requires !scan.isOrgOwner || ps.permission != Admin
             || SourceKey(teamFullnames, login, ps.source) in scan.skippedSources
    requires Visit(teamFullnames, reponame, login, scan, ps).Ok?
    ensures Visit(teamFullnames, reponame, login, Visit(teamFullnames, reponame, login, scan, ps).value, ps)
         == Visit(teamFullnames, reponame, login, scan, ps)
  {
    var key := SourceKey(teamFullnames, login, ps.source);
    if key != AmbientKey {
      MergeIdempotent(reponame, scan.ret, key, ps.permission);
    }
  }

  /** Aggregates the collaborators of one repository, or passes on the error
      of the request that lists them. */
  method GetCollaborators(teamFullnames: map<string, string>, reponame: string, fetched: Result<seq<Edge>>)
    returns (r: Result<map<string, string>>)
    ensures fetched.Err? ==> r == Err(fetched.error)
    ensures fetched.Ok? ==> r == Aggregate(teamFullnames, reponame, fetched.value)
    ensures r.Ok? ==> AmbientKey !in r.value
    ensures fetched.Ok? && r.Err? ==> r.error.Mismatch? && r.error.reponame == reponame
  {
    if fetched.Err? {
      return Err(fetched.error);
    }
    var edges := fetched.value;
    var ret: map<string, string> := map[];
    for i := 0 to |edges|
      invariant Aggregate(teamFullnames, reponame, edges) == AggregateFrom(teamFullnames, reponame, ret, edges[i..])
      invariant AmbientKey !in ret
    {
      var userInfo := edges[i];
      ghost var start := ret;
      var isOrgOwner := false;
      var skippedSources: set<string> := {};
      var sources := userInfo.permissionSources;
      for j := 0 to |sources|
        invariant VisitAll(teamFullnames, reponame, userInfo.login, Scan(start, false, {}), sources)
               == VisitAll(teamFullnames, reponame, userInfo.login, Scan(ret, isOrgOwner, skippedSources), sources[j..])
        invariant AmbientKey !in ret
      {
        var source := sources[j];
        assert sources[j..][0] == source && sources[j..][1..] == sources[j + 1..];
        var key := SourceKey(teamFullnames, userInfo.login, source.source);
        if key == AmbientKey {
          if source.permission == Admin {
            isOrgOwner := true;
          }
          // The organization's own access is not recorded.
          continue;
        }
        if isOrgOwner && key !in skippedSources && source.permission == Admin {
          // An owner's ADMIN is re-reported once for every other source: drop the first.
          skippedSources := skippedSources + {key};
          continue;
        }
        if key in ret && ret[key] != source.permission {
          if (HasPrefix(key, "team:") && ret[key] == Write && source.permission == Admin)
             || (ret[key] == Admin && source.permission == Write) {
            ret := ret[key := Admin];
            continue;
          }
          return Err(Mismatch(reponame, key, ret[key], source.permission));
        }
        ret := ret[key := source.permission];
      }
      assert sources[|sources|..] == [];
      assert edges[i..][0] == userInfo && edges[i..][1..] == edges[i + 1..];
    }
    assert edges[|edges|..] == [];
    r := Ok(ret);
  }
}
