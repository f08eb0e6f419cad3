/** Listing objects (`queryAPI` and `getAllResources` in tree/main.go):
    the pagination loop against one resource, and the merge of the
    listings of every namespaced resource of the catalog. */
module Fetcher {
  import opened Wrappers
  import opened Catalog
  import opened Directory

  /** The page size every list request asks for. */
  const PageLimit: nat := 250

  /** metav1.ListOptions: the parts the loop sets. */
  datatype ListOptions = ListOptions(limit: nat, continueToken: string)

  /** One response of `List`: a page of items with the token for the next
      page (empty on the last page), or a failure. */
  datatype Page = Page(items: seq<Object>, continueToken: string) | PageFailed(cause: string)

  /** The error `queryAPI` reports: the resource and the server's cause. */
  datatype FetchError = ListFailed(resource: GroupVersionResource, cause: string)

  /** The cluster, seen through list requests: the responses a resource in
      a namespace gives to the successive requests of one listing. */
  type Server = (GroupVersionResource, string) -> seq<Page>

  /** A response after which the loop asks no more. */
  predicate Ends(p: Page)
  {
    p.PageFailed? || p.continueToken == ""
  }

  /** The listing finishes: some response ends it. */
  predicate Terminates(pages: seq<Page>)
  {
    exists i | 0 <= i < |pages| :: Ends(pages[i])
  }

  lemma TerminatesTail(pages: seq<Page>)
    requires Terminates(pages) && !Ends(pages[0])
    ensures Terminates(pages[1..])
  {
    var i :| 0 <= i < |pages| && Ends(pages[i]);
    assert pages[1..][i - 1] == pages[i];
  }

  /** The index of the response that ends the listing. */
  function FirstEnd(pages: seq<Page>): (n: nat)
    requires Terminates(pages)
    ensures n < |pages| && Ends(pages[n])
    ensures forall i | 0 <= i < n :: !Ends(pages[i])
    decreases |pages|
  {
    if Ends(pages[0]) then 0
    else
      TerminatesTail(pages);
      var n := FirstEnd(pages[1..]);
      assert forall i | 1 <= i < n + 1 :: pages[i] == pages[1..][i - 1];
      n + 1
  }

  /** The items of a response; a failure carries none. */
  function ItemsOf(p: Page): seq<Object>
  {
    if p.Page? then p.items else []
  }

  /** The continuation token of a response; a failure carries none. */
  function TokenOf(p: Page): string
  {
    if p.Page? then p.continueToken else ""
  }

  /** The items of `pages`, in request order. */
  function ConcatItems(pages: seq<Page>): seq<Object>
  {
    if pages == [] then []
    else ConcatItems(pages[..|pages| - 1]) + ItemsOf(pages[|pages| - 1])
  }

  /** What listing a resource returns, given the server's responses: the
      items of every page up to the last one, or the failure that stopped
      the loop, which discards the items already read. */
  function Listing(pages: seq<Page>, gvr: GroupVersionResource): Result<seq<Object>, FetchError>
    requires Terminates(pages)
  {
    var n := FirstEnd(pages);
    if pages[n].PageFailed? then Err(ListFailed(gvr, pages[n].cause))
    else Ok(ConcatItems(pages[..n + 1]))
  }

  /** The request number `i` of a listing sends the token of response `i - 1`. */
  function RequestAt(pages: seq<Page>, i: nat): ListOptions
    requires i <= |pages|
  {
    if i == 0 then ListOptions(PageLimit, "") else ListOptions(PageLimit, TokenOf(pages[i - 1]))
  }

  /** `queryAPI`: list `api` in `ns` page by page, passing each response's
      token to the next request, until a response has no token or fails.
      `requests` records the options of every request sent. */
  method QueryAPI(server: Server, api: ApiResource, ns: string)
    returns (res: Result<seq<Object>, FetchError>, ghost requests: seq<ListOptions>)
    requires Terminates(server(GVR(api), ns))
    ensures res == Listing(server(GVR(api), ns), GVR(api))
    ensures |requests| == FirstEnd(server(GVR(api), ns)) + 1
    ensures forall i | 0 <= i < |requests| :: requests[i] == RequestAt(server(GVR(api), ns), i)
  {
    var pages := server(GVR(api), ns);
    ghost var n := FirstEnd(pages);
    var out: seq<Object> := [];
    var next := "";
    var i := 0;
    requests := [];
    while true
      invariant 0 <= i <= n
      invariant out == ConcatItems(pages[..i])
      invariant next == RequestAt(pages, i).continueToken
      invariant |requests| == i
      invariant forall k | 0 <= k < i :: requests[k] == RequestAt(pages, k)
      decreases n - i
    {
      var opts := ListOptions(PageLimit, next);
      requests := requests + [opts];
      var resp := pages[i];
      if resp.PageFailed? {
        assert i == n;
        res := Err(ListFailed(GVR(api), resp.cause));
        return;
      }
      assert pages[..i + 1][..i] == pages[..i];
      assert ConcatItems(pages[..i + 1]) == ConcatItems(pages[..i]) + resp.items;
      out := out + resp.items;
      next := resp.continueToken;
      if next == "" {
        break;
      }
      i := i + 1;
    }
    res := Ok(out);
  }

  /** Splitting the responses splits their items. */
  lemma {:induction false} ConcatItemsAppend(a: seq<Page>, b: seq<Page>)
    ensures ConcatItems(a + b) == ConcatItems(a) + ConcatItems(b)
    decreases |b|
  {
    if b != [] {
      var init := b[..|b| - 1];
      assert a + b == (a + init) + [b[|b| - 1]];
      assert (a + b)[..|a + b| - 1] == a + init;
      assert (a + b)[|a + b| - 1] == b[|b| - 1];
      assert ConcatItems(a + b) == ConcatItems(a + init) + ItemsOf(b[|b| - 1]);
      assert ConcatItems(b) == ConcatItems(init) + ItemsOf(b[|b| - 1]);
      ConcatItemsAppend(a, init);
    } else {
      assert a + b == a;
    }
  }

  /** An object is listed exactly when some page read before the end holds it. */
  lemma {:induction false} ConcatItemsMembers(pages: seq<Page>, x: Object)
    ensures x in ConcatItems(pages) <==> exists k | 0 <= k < |pages| :: x in ItemsOf(pages[k])
  {
    if pages != [] {
      var init := pages[..|pages| - 1];
      ConcatItemsMembers(init, x);
      if x in ConcatItems(init) {
        var k :| 0 <= k < |init| && x in ItemsOf(init[k]);
        assert pages[k] == init[k];
      }
      if exists k | 0 <= k < |pages| :: x in ItemsOf(pages[k]) {
        var k :| 0 <= k < |pages| && x in ItemsOf(pages[k]);
        if k < |init| {
          assert init[k] == pages[k];
        }
      }
    }
  }

  /** A successful listing holds the items of every page up to the first
      one without a token, and nothing else. */
  lemma ListingMembers(pages: seq<Page>, gvr: GroupVersionResource, x: Object)
    requires Terminates(pages) && Listing(pages, gvr).Ok?
    ensures x in Listing(pages, gvr).value <==>
      exists k | 0 <= k <= FirstEnd(pages) :: x in pages[k].items
  {
    var n := FirstEnd(pages);
    ConcatItemsMembers(pages[..n + 1], x);
    forall k | 0 <= k <= n
      ensures pages[..n + 1][k] == pages[k] && pages[k].Page?
    {
    }
  }

  /** A failure the loop reaches discards everything: no items are returned
      and the error names the resource and the cause. */
  lemma FailureReturnsNoItems(pages: seq<Page>, gvr: GroupVersionResource, k: nat)
    requires k < |pages| && pages[k].PageFailed?
    requires forall j | 0 <= j < k :: pages[j].Page? && pages[j].continueToken != ""
    ensures Terminates(pages)
    ensures Listing(pages, gvr) == Err(ListFailed(gvr, pages[k].cause))
  {
    assert Ends(pages[k]);
  }

  /** Responses after the one without a token are never requested. */
  lemma LaterPagesIgnored(pages: seq<Page>, more: seq<Page>, gvr: GroupVersionResource)
    requires Terminates(pages)
    ensures Terminates(pages + more)
    ensures FirstEnd(pages + more) == FirstEnd(pages)
    ensures Listing(pages + more, gvr) == Listing(pages, gvr)
  {
    var n := FirstEnd(pages);
    assert (pages + more)[n] == pages[n];
    assert forall i | 0 <= i < n :: (pages + more)[i] == pages[i];
    assert (pages + more)[..n + 1] == pages[..n + 1];
  }

  /** Three pages, the last without a token: all their items, in order. */
  lemma ThreePages(a: seq<Object>, b: seq<Object>, c: seq<Object>, gvr: GroupVersionResource)
    ensures Terminates([Page(a, "t1"), Page(b, "t2"), Page(c, "")])
    ensures Listing([Page(a, "t1"), Page(b, "t2"), Page(c, "")], gvr) == Ok(a + b + c)
  {
    var pages := [Page(a, "t1"), Page(b, "t2"), Page(c, "")];
    assert Ends(pages[2]);
    assert FirstEnd(pages) == 2 by {
      assert !Ends(pages[0]) && !Ends(pages[1]);
    }
    assert pages[..3] == pages;
    assert pages[..3][..2] == [pages[0], pages[1]];
    assert [pages[0], pages[1]][..1] == [pages[0]];
    assert ConcatItems([pages[0]]) == a by {
      assert [pages[0]][..0] == [];
    }
    assert ConcatItems([pages[0], pages[1]]) == a + b;
  }

  /** The resources `getAllResources` queries: the namespaced ones, in order. */
  function Namespaced(apis: seq<ApiResource>): seq<ApiResource>
  {
    if apis == [] then []
    else
      var init := Namespaced(apis[..|apis| - 1]);
      var a := apis[|apis| - 1];
      if a.r.namespaced then init + [a] else init
  }

  /** Only namespaced resources are queried, and every one of them is. */
  lemma {:induction false} NamespacedMembers(apis: seq<ApiResource>, a: ApiResource)
    ensures a in Namespaced(apis) <==> a in apis && a.r.namespaced
  {
    if apis != [] {
      var init := apis[..|apis| - 1];
      NamespacedMembers(init, a);
      assert apis == init + [apis[|apis| - 1]];
    }
  }

  /** Every resource in `qs` can be listed to the end. */
  predicate AllTerminate(server: Server, qs: seq<ApiResource>, ns: string)
  {
    forall a | a in qs :: Terminates(server(GVR(a), ns))
  }

  /** The listing of one resource. */
  function Query(server: Server, a: ApiResource, ns: string): Result<seq<Object>, FetchError>
    requires Terminates(server(GVR(a), ns))
  {
    Listing(server(GVR(a), ns), GVR(a))
  }

  /** The items of the successful listings of `qs`, in query order. */
  function Merged(server: Server, qs: seq<ApiResource>, ns: string): seq<Object>
    requires AllTerminate(server, qs, ns)
  {
    if qs == [] then []
    else
      var a := qs[|qs| - 1];
      var q := Query(server, a, ns);
      Merged(server, qs[..|qs| - 1], ns) + (if q.Ok? then q.value else [])
  }

  /** The errors of the failed listings of `qs`, in query order. */
  function Failures(server: Server, qs: seq<ApiResource>, ns: string): seq<FetchError>
    requires AllTerminate(server, qs, ns)
  {
    if qs == [] then []
    else
      var q := Query(server, qs[|qs| - 1], ns);
      Failures(server, qs[..|qs| - 1], ns) + (if q.Err? then [q.error] else [])
  }

  /** An error is among the failures exactly when some listing of `qs`
      fails with it. */
  lemma {:induction false} FailuresMembers(server: Server, qs: seq<ApiResource>, ns: string, e: FetchError)
    requires AllTerminate(server, qs, ns)
    ensures e in Failures(server, qs, ns) <==> exists a | a in qs :: Query(server, a, ns) == Err(e)
  {
    if qs != [] {
      var init := qs[..|qs| - 1];
      var last := qs[|qs| - 1];
      assert qs == init + [last];
      FailuresMembers(server, init, ns, e);
      if exists a | a in qs :: Query(server, a, ns) == Err(e) {
        var a :| a in qs && Query(server, a, ns) == Err(e);
        assert a in init || a == last;
      }
    }
  }

  /** No listing of `qs` fails exactly when there are no failures. */
  lemma {:induction false} NoFailures(server: Server, qs: seq<ApiResource>, ns: string)
    requires AllTerminate(server, qs, ns)
    ensures Failures(server, qs, ns) == [] <==> forall a | a in qs :: Query(server, a, ns).Ok?
  {
    if qs != [] {
      var init := qs[..|qs| - 1];
      var last := qs[|qs| - 1];
      assert qs == init + [last];
      NoFailures(server, init, ns);
      if Failures(server, qs, ns) == [] {
        forall a | a in qs
          ensures Query(server, a, ns).Ok?
        {
          assert a in init || a == last;
        }
      }
    }
  }

  /** Querying one more resource extends the merge and the failures by
      that resource's listing. */
  lemma QueriedStep(server: Server, qs: seq<ApiResource>, a: ApiResource, ns: string)
    requires AllTerminate(server, qs, ns) && Terminates(server(GVR(a), ns))
    ensures AllTerminate(server, qs + [a], ns)
    ensures Merged(server, qs + [a], ns) ==
      Merged(server, qs, ns) + (if Query(server, a, ns).Ok? then Query(server, a, ns).value else [])
    ensures Failures(server, qs + [a], ns) ==
      Failures(server, qs, ns) + (if Query(server, a, ns).Err? then [Query(server, a, ns).error] else [])
  {
    assert (qs + [a])[..|qs|] == qs;
  }

  /** `getAllResources`, sequentialised: list every namespaced resource and
      collect what the successful listings return. The listing fails when
      any of them fails, with the error of one that failed. Only the
      listings of `Namespaced(apis)` decide the result. */
  method GetAllResources(server: Server, apis: seq<ApiResource>, ns: string)
    returns (res: Result<seq<Object>, FetchError>)
    requires AllTerminate(server, Namespaced(apis), ns)
    ensures res.Ok? <==> forall a | a in Namespaced(apis) :: Query(server, a, ns).Ok?
    ensures res.Ok? ==> res.value == Merged(server, Namespaced(apis), ns)
    ensures res.Err? ==> exists a | a in Namespaced(apis) :: Query(server, a, ns) == Err(res.error)
  {
    var out: seq<Object> := [];
    var errResult: Option<FetchError> := None;
    ghost var queried: seq<ApiResource> := [];
    var i := 0;
    while i < |apis|
      invariant 0 <= i <= |apis|
      invariant queried == Namespaced(apis[..i])
      invariant AllTerminate(server, queried, ns)
      invariant out == Merged(server, queried, ns)
      invariant errResult.None? <==> Failures(server, queried, ns) == []
      invariant errResult.Some? ==> errResult.value in Failures(server, queried, ns)
    {
      var api := apis[i];
      assert apis[..i + 1] == apis[..i] + [api];
      if !api.r.namespaced {
        i := i + 1;
        continue;
      }
      NamespacedMembers(apis, api);
      QueriedStep(server, queried, api, ns);
      queried := queried + [api];
      var v, _ := QueryAPI(server, api, ns);
      if v.Err? {
        errResult := Some(v.error);
      } else {
        out := out + v.value;
      }
      i := i + 1;
    }
    assert apis[..|apis|] == apis;
    NoFailures(server, queried, ns);
    if errResult.Some? {
      FailuresMembers(server, queried, ns, errResult.value);
      res := Err(errResult.value);
    } else {
      res := Ok(out);
    }
  }

  /** The merged output holds every successful listing's items, each as
      many times as that listing returned it. */
  lemma {:induction false} MergedContains(server: Server, qs: seq<ApiResource>, ns: string, a: ApiResource)
    requires AllTerminate(server, qs, ns)
    requires a in qs && Query(server, a, ns).Ok?
    ensures multiset(Query(server, a, ns).value) <= multiset(Merged(server, qs, ns))
  {
    var init := qs[..|qs| - 1];
    var last := qs[|qs| - 1];
    assert qs == init + [last];
    if a == last {
    } else {
      assert a in init;
      MergedContains(server, init, ns, a);
    }
  }

  /** The merged output is exactly as long as the successful listings together. */
  function ListedCount(server: Server, qs: seq<ApiResource>, ns: string): nat
    requires AllTerminate(server, qs, ns)
  {
    if qs == [] then 0
    else
      var q := Query(server, qs[|qs| - 1], ns);
      ListedCount(server, qs[..|qs| - 1], ns) + (if q.Ok? then |q.value| else 0)
  }

  lemma {:induction false} MergedCount(server: Server, qs: seq<ApiResource>, ns: string)
    requires AllTerminate(server, qs, ns)
    ensures |Merged(server, qs, ns)| == ListedCount(server, qs, ns)
  {
    if qs != [] {
      MergedCount(server, qs[..|qs| - 1], ns);
    }
  }
}
