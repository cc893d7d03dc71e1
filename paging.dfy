/** Cursor-paginated traversal of a backend listing (teams, repositories).
    The backend is a total function from the cursor sent with a request to the
    page it answers with, or the error that request fails with. */
module Paging {
  import opened Base

  /** The cursor sent with a request: `None` until a page has been received,
      afterwards the end cursor of the page received last. */
  type Cursor = Option<string>

  datatype Page<T> = Page(nodes: seq<T>, hasNextPage: bool, endCursor: string)

  /** The traversal that starts at `cursor` ends within `fuel` requests: some
      request fails or answers with a page that has no next page. */
  predicate Finishes<T>(fetch: Cursor -> Result<Page<T>>, cursor: Cursor, fuel: nat)
    decreases fuel
  {
    fuel > 0 &&
    (fetch(cursor).Ok? && fetch(cursor).value.hasNextPage ==>
       Finishes(fetch, Some(fetch(cursor).value.endCursor), fuel - 1))
  }

  /** The pages a traversal from `cursor` receives, in order, or the error of
      the first request that fails (no partial list). */
  function Pages<T>(fetch: Cursor -> Result<Page<T>>, cursor: Cursor, fuel: nat): (r: Result<seq<Page<T>>>)
    requires Finishes(fetch, cursor, fuel)
    ensures r.Ok? ==> |r.value| >= 1 && fetch(cursor) == Ok(r.value[0])
    ensures r.Ok? ==> !r.value[|r.value| - 1].hasNextPage
    ensures r.Ok? ==> forall i :: 0 <= i < |r.value| - 1 ==> r.value[i].hasNextPage
    decreases fuel
  {
    match fetch(cursor)
    case Err(e) => Err(e)
    case Ok(page) =>
      if !page.hasNextPage then Ok([page])
      else
        match Pages(fetch, Some(page.endCursor), fuel - 1)
        case Err(e) => Err(e)
        case Ok(rest) => Ok([page] + rest)
  }

  /** `done` followed by the pages of `r`, or the error of `r`. */
  function Prepend<T>(done: seq<T>, r: Result<seq<T>>): Result<seq<T>>
  {
    match r
    case Err(e) => Err(e)
    case Ok(rest) => Ok(done + rest)
  }

  lemma PrependNothing<T>(r: Result<seq<T>>)
    ensures Prepend([], r) == r
  {
    if r.Ok? {
      assert [] + r.value == r.value;
    }
  }

  /** One request of a traversal that is under way: `done` holds the pages
      received so far and the traversal goes on from `cursor`. A failure ends
      the whole traversal with that failure; a page is appended to `done`, and
      the traversal goes on from its end cursor exactly when it has a next page. */
  lemma Advance<T>(whole: Result<seq<Page<T>>>, done: seq<Page<T>>,
                   fetch: Cursor -> Result<Page<T>>, cursor: Cursor, left: nat)
    requires Finishes(fetch, cursor, left)
    requires whole == Prepend(done, Pages(fetch, cursor, left))
    ensures fetch(cursor).Err? ==> whole == Err(fetch(cursor).error)
    ensures fetch(cursor).Ok? && fetch(cursor).value.hasNextPage ==>
      Finishes(fetch, Some(fetch(cursor).value.endCursor), left - 1) &&
      whole == Prepend(done + [fetch(cursor).value], Pages(fetch, Some(fetch(cursor).value.endCursor), left - 1))
    ensures fetch(cursor).Ok? && !fetch(cursor).value.hasNextPage ==>
      whole == Ok(done + [fetch(cursor).value])
  {
    var response := fetch(cursor);
    if response.Ok? && response.value.hasNextPage {
      var page := response.value;
      var next := Pages(fetch, Some(page.endCursor), left - 1);
      if next.Ok? {
        assert Pages(fetch, cursor, left) == Ok([page] + next.value);
        assert done + ([page] + next.value) == (done + [page]) + next.value;
      } else {
        assert Pages(fetch, cursor, left) == Err(next.error);
      }
    }
  }

  /** The nodes of all pages, concatenated in page order. */
  function Nodes<T>(pages: seq<Page<T>>): (r: seq<T>)
    ensures forall i, k :: 0 <= i < |pages| && 0 <= k < |pages[i].nodes| ==> pages[i].nodes[k] in r
    ensures forall x :: x in r ==> exists i :: 0 <= i < |pages| && x in pages[i].nodes
  {
    if pages == [] then []
    else
      assert forall i :: 0 < i < |pages| ==> pages[1..][i - 1] == pages[i];
      pages[0].nodes + Nodes(pages[1..])
  }

  /** Each request after the first carries the end cursor of the page before. */
  lemma {:induction false} PagesFollowCursors<T>(fetch: Cursor -> Result<Page<T>>, cursor: Cursor, fuel: nat)
    requires Finishes(fetch, cursor, fuel)
    requires Pages(fetch, cursor, fuel).Ok?
    decreases fuel
    ensures var ps := Pages(fetch, cursor, fuel).value;
      forall i :: 0 <= i < |ps| - 1 ==> fetch(Some(ps[i].endCursor)) == Ok(ps[i + 1])
  {
    var ps := Pages(fetch, cursor, fuel).value;
    if |ps| > 1 {
      var page := fetch(cursor).value;
      var rest := Pages(fetch, Some(page.endCursor), fuel - 1).value;
      assert ps == [page] + rest;
      PagesFollowCursors(fetch, Some(page.endCursor), fuel - 1);
      forall i | 0 <= i < |ps| - 1
        ensures fetch(Some(ps[i].endCursor)) == Ok(ps[i + 1])
      {
        if i > 0 {
          assert ps[i] == rest[i - 1] && ps[i + 1] == rest[i];
        }
      }
    }
  }

  /** The traversal from `cursor` receives the pages `received`, each one
      saying a next page follows and each request after the first carrying the
      end cursor of the page before, and then its next request fails with `e`.
      Written as a (ghost) relation, since page equality is only a proof notion. */
  ghost predicate FailsAfter<T>(fetch: Cursor -> Result<Page<T>>, cursor: Cursor, received: seq<Page<T>>, e: Error)
    decreases |received|
  {
    if received == [] then fetch(cursor) == Err(e)
    else
      fetch(cursor) == Ok(received[0]) && received[0].hasNextPage &&
      FailsAfter(fetch, Some(received[0].endCursor), received[1..], e)
  }

  lemma {:induction false} FailsAfterFails<T>(fetch: Cursor -> Result<Page<T>>, cursor: Cursor, fuel: nat,
                                              received: seq<Page<T>>, e: Error)
    requires Finishes(fetch, cursor, fuel)
    requires FailsAfter(fetch, cursor, received, e)
    ensures Pages(fetch, cursor, fuel) == Err(e)
    decreases |received|
  {
    if received != [] {
      FailsAfterFails(fetch, Some(received[0].endCursor), fuel - 1, received[1..], e);
    }
  }

  /** A traversal fails with `e` exactly when some request it sends fails with
      `e` after every earlier request received a page saying more follow; so a
      traversal whose requests all succeed ends with its pages, and a failed one
      returns the error of the request that failed, with no partial list. */
  lemma {:induction false} PagesFailure<T>(fetch: Cursor -> Result<Page<T>>, cursor: Cursor, fuel: nat, e: Error)
    requires Finishes(fetch, cursor, fuel)
    ensures Pages(fetch, cursor, fuel) == Err(e) <==> exists received :: FailsAfter(fetch, cursor, received, e)
    decreases fuel
  {
    if Pages(fetch, cursor, fuel) == Err(e) {
      if fetch(cursor).Err? {
        var none: seq<Page<T>> := [];
        assert FailsAfter(fetch, cursor, none, e);
        assert exists received :: FailsAfter(fetch, cursor, received, e);
      } else {
        var page := fetch(cursor).value;
        PagesFailure(fetch, Some(page.endCursor), fuel - 1, e);
        var rest :| FailsAfter(fetch, Some(page.endCursor), rest, e);
        assert ([page] + rest)[1..] == rest;
        assert FailsAfter(fetch, cursor, [page] + rest, e);
        assert exists received :: FailsAfter(fetch, cursor, received, e);
      }
    } else {
      forall received | FailsAfter(fetch, cursor, received, e)
        ensures false
      {
        FailsAfterFails(fetch, cursor, fuel, received, e);
      }
    }
  }

  /** The pages received do not depend on the bound chosen for the traversal. */
  lemma {:induction false} PagesFuelIrrelevant<T>(fetch: Cursor -> Result<Page<T>>, cursor: Cursor, fuel: nat, fuel': nat)
    requires Finishes(fetch, cursor, fuel) && Finishes(fetch, cursor, fuel')
    ensures Pages(fetch, cursor, fuel) == Pages(fetch, cursor, fuel')
    decreases fuel
  {
    if fetch(cursor).Ok? && fetch(cursor).value.hasNextPage {
      PagesFuelIrrelevant(fetch, Some(fetch(cursor).value.endCursor), fuel - 1, fuel' - 1);
    }
  }

  lemma {:induction false} NodesAppend<T>(pages: seq<Page<T>>, page: Page<T>)
    ensures Nodes(pages + [page]) == Nodes(pages) + page.nodes
  {
    if pages != [] {
      assert (pages + [page])[1..] == pages[1..] + [page];
      NodesAppend(pages[1..], page);
    }
  }

  /** Page `i` contributes its nodes, in order, between those of the pages
      before it and those of the pages after it. */
  lemma {:induction false} NodesInPageOrder<T>(pages: seq<Page<T>>, i: nat)
    requires i < |pages|
    ensures Nodes(pages) == Nodes(pages[..i]) + pages[i].nodes + Nodes(pages[i + 1..])
  {
    if i > 0 {
      NodesInPageOrder(pages[1..], i - 1);
      assert pages[1..][..i - 1] == pages[1..i];
      assert pages[1..][i - 1] == pages[i];
      assert pages[1..][i..] == pages[i + 1..];
      assert pages[..i][0] == pages[0] && pages[..i][1..] == pages[1..i];
    }
  }
}
