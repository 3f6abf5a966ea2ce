/**
 * Fetcher: every page of a paged drupal.org REST listing, following the
 * `next` links up to a cap of 200 pages, with results cached per URL and
 * week. The HTTP client is a function from a URL to the decoded page, the
 * cache directory a map from file name to data, and `date('Y-W')` a
 * parameter. The fetchers for fixed issues and recent comments add the
 * cutoff that decides when a listing has gone far enough back in time.
 */
module Fetching {
  import opened Base
  import opened Text
  import opened Assoc

  /** A decoded page: its items, and the URL of the next page ("" or "0" when there is none). */
  datatype Page<T> = Page(list: seq<T>, next: string)

  /** The cap on the pages requested for one URL. */
  const MaxPages: nat := 200

  /** str_replace('api-d7/node', 'api-d7/node.json', $next): the next page's URL. */
  function NextUrl(next: string): string
  {
    ReplaceAll(next, "api-d7/node", "api-d7/node.json")
  }

  /**
   * The URLs doFetch requests, in order, starting at url with a budget of
   * pages: each page is requested, and its next link followed while it has
   * one and the budget lasts.
   */
  function Crawl<T>(pages: string -> Page<T>, url: string, budget: nat): (r: seq<string>)
    ensures budget > 0 ==> 1 <= |r| <= budget && r[0] == url
    ensures budget == 0 ==> r == []
    decreases budget
  {
    if budget == 0 then []
    else
      var page := pages(url);
      if IsEmptyString(page.next) || budget == 1 then [url]
      else [url] + Crawl(pages, NextUrl(page.next), budget - 1)
  }

  /** array_merge of the lists of the given pages, in order. */
  function ListsOf<T>(pages: string -> Page<T>, urls: seq<string>): seq<T>
  {
    if |urls| == 0 then [] else ListsOf(pages, urls[..|urls| - 1]) + pages(urls[|urls| - 1]).list
  }

  /**
   * Each URL after the first is the rewritten next link of the page before
   * it, every page but the last has a next link, and the crawl ends at a page
   * without one or when the budget is spent.
   */
  lemma {:induction false} CrawlChain<T>(pages: string -> Page<T>, url: string, budget: nat)
    ensures var r := Crawl(pages, url, budget);
      forall k :: 0 <= k < |r| - 1 ==> !IsEmptyString(pages(r[k]).next) && r[k + 1] == NextUrl(pages(r[k]).next)
    ensures var r := Crawl(pages, url, budget);
      |r| > 0 ==> |r| == budget || IsEmptyString(pages(r[|r| - 1]).next)
    decreases budget
  {
    var r := Crawl(pages, url, budget);
    if budget > 1 && !IsEmptyString(pages(url).next) {
      var next := NextUrl(pages(url).next);
      CrawlChain(pages, next, budget - 1);
      var rest := Crawl(pages, next, budget - 1);
      assert r == [url] + rest;
      forall k | 0 <= k < |r| - 1
        ensures !IsEmptyString(pages(r[k]).next) && r[k + 1] == NextUrl(pages(r[k]).next)
      {
        if k > 0 {
          assert r[k] == rest[k - 1] && r[k + 1] == rest[k];
        }
      }
    }
  }

  /** A page without a next link ends the crawl at once. */
  lemma CrawlStops<T>(pages: string -> Page<T>, url: string, budget: nat)
    requires budget > 0 && IsEmptyString(pages(url).next)
    ensures Crawl(pages, url, budget) == [url]
    ensures ListsOf(pages, Crawl(pages, url, budget)) == pages(url).list
  {
    assert [url][..0] == [];
  }

  /**
   * The cache file name: the URL with each character outside
   * `[A-Za-z0-9_-]` replaced by '_' (once per UTF-8 byte), then '_', the
   * week stamp and ".txt".
   */
  function CacheKey(url: string, week: string): (r: string)
    ensures |r| >= |url| + |week| + 5
  {
    ReplaceDisallowedLength(url);
    ReplaceDisallowed(url) + "_" + week + ".txt"
  }

  /**
   * The parts of the cache file name: the replaced URL, made of allowed
   * characters only, then '_', the week stamp and ".txt"; on an ASCII URL
   * the replacement keeps the length and works position by position.
   */
  lemma CacheKeyParts(url: string, week: string)
    ensures var r := CacheKey(url, week);
      |r| == |ReplaceDisallowed(url)| + |week| + 5 &&
      r[..|ReplaceDisallowed(url)|] == ReplaceDisallowed(url) &&
      (forall i :: 0 <= i < |ReplaceDisallowed(url)| ==> IsFileNameChar(r[i])) &&
      r[|r| - |week| - 5] == '_' && r[|r| - |week| - 4..|r| - 4] == week && r[|r| - 4..] == ".txt"
    ensures IsAscii(url) ==> |CacheKey(url, week)| == |url| + |week| + 5
    ensures IsAscii(url) ==> forall i :: 0 <= i < |url| ==>
      CacheKey(url, week)[i] == (if IsFileNameChar(url[i]) then url[i] else '_')
  {
    ReplaceDisallowedClean(url);
    ReplaceDisallowedLength(url);
    ReplaceDisallowedAscii(url);
    var name := ReplaceDisallowed(url);
    var r := CacheKey(url, week);
    assert r == name + "_" + week + ".txt";
    assert r[..|name|] == name;
    assert r[|name|] == '_' && r[|name| + 1..|name| + 1 + |week|] == week;
  }

  /** The week stamp is part of the key: the same URL in another week has another cache file. */
  lemma CacheKeyWeekly(url: string, week1: string, week2: string)
    requires week1 != week2
    ensures CacheKey(url, week1) != CacheKey(url, week2)
  {
    CacheKeyParts(url, week1);
    CacheKeyParts(url, week2);
    var a, b := CacheKey(url, week1), CacheKey(url, week2);
    assert a[|a| - |week1| - 4..|a| - 4] == week1;
    assert b[|b| - |week2| - 4..|b| - 4] == week2;
  }

  /** Two URLs that differ only in replaced characters share one cache file. */
  lemma CacheKeyCollision(week: string)
    ensures CacheKey("a?b", week) == CacheKey("a&b", week)
  {
    var p, q := "a?b", "a&b";
    assert p[1..] == "?b" && q[1..] == "&b";
    assert ReplaceDisallowed(p[1..][1..]) == ReplaceDisallowed(q[1..][1..]);
  }

  /** One step of the crawl: the page, then the rest of the crawl from its next link. */
  lemma CrawlStep<T>(pages: string -> Page<T>, url: string, budget: nat)
    requires budget > 0
    ensures Crawl(pages, url, budget) ==
      if budget > 1 && !IsEmptyString(pages(url).next) then [url] + Crawl(pages, NextUrl(pages(url).next), budget - 1)
      else [url]
  {
  }

  lemma ConcatAssoc<X>(a: seq<X>, b: seq<X>, c: seq<X>)
    ensures a + (b + c) == a + b + c
  {
  }

  /** The array_merge of the pages of a longer list extends that of the shorter. */
  lemma ListsOfSnoc<T>(pages: string -> Page<T>, urls: seq<string>, u: string)
    ensures ListsOf(pages, urls + [u]) == ListsOf(pages, urls) + pages(u).list
  {
    assert (urls + [u])[..|urls|] == urls;
  }

  /**
   * The do-while loop of doFetch: request a page, follow its next link if it
   * has one, merge its list, and go on while fewer than 200 pages have been
   * requested and the page had a next link.
   */
  method FetchPages<T>(pages: string -> Page<T>, url: string) returns (result: seq<T>, requested: seq<string>)
    ensures requested == Crawl(pages, url, MaxPages)
    ensures result == ListsOf(pages, requested)
  {
    var i := 0;
    result := [];
    requested := [];
    var u := url;
    var more := true;
    while more
      invariant 0 <= i <= MaxPages
      invariant result == ListsOf(pages, requested)
      invariant more ==> i < MaxPages && Crawl(pages, url, MaxPages) == requested + Crawl(pages, u, MaxPages - i)
      invariant !more ==> Crawl(pages, url, MaxPages) == requested
      decreases MaxPages - i, more
    {
      var page := pages(u);
      ListsOfSnoc(pages, requested, u);
      CrawlStep(pages, u, MaxPages - i);
      ghost var here := u;
      ghost var before := requested;
      requested := requested + [u];
      if !IsEmptyString(page.next) {
        u := NextUrl(page.next);
      }
      result := result + page.list;
      i := i + 1;
      more := i < MaxPages && !IsEmptyString(page.next);
      if more {
        assert Crawl(pages, here, MaxPages - i + 1) == [here] + Crawl(pages, u, MaxPages - i);
        ConcatAssoc(before, [here], Crawl(pages, u, MaxPages - i));
      } else {
        assert Crawl(pages, here, MaxPages - i + 1) == [here];
      }
    }
  }

  /**
   * What fetch's loop has done after storing the data of the first i URLs:
   * every key it started with is still there, the keys of those URLs are
   * added, keys of no URL keep their data, and distinct keys stay distinct.
   */
  ghost predicate StoredUpTo<V>(start: Assoc<V>, data: Assoc<V>, urls: Assoc<string>, i: nat)
    requires i <= |urls|
  {
    KeySet(data) == KeySet(start) + KeySet(urls[..i]) &&
    (forall k :: k !in KeySet(urls) ==> Get(data, k) == Get(start, k)) &&
    (DistinctKeys(start) ==> DistinctKeys(data))
  }

  /** One step of fetch's loop: storing the data of URL i. */
  lemma StoreStep<V>(start: Assoc<V>, data: Assoc<V>, urls: Assoc<string>, i: nat, v: V)
    requires i < |urls| && StoredUpTo(start, data, urls, i)
    ensures StoredUpTo(start, Put(data, urls[i].0, v), urls, i + 1)
  {
    if DistinctKeys(data) {
      PutDistinct(data, urls[i].0, v);
    }
    assert urls[i].0 in KeySet(urls);
    KeySetPrefix(urls, i);
  }

  /** Fetcher over a request's URL map, a page source and a cache directory. */
  class Fetcher<T> {
    /** The request's URLs as getUrls() returns them, keyed by branch (or by node id, or "recent comments"). */
    const urls: Assoc<string>
    /** The HTTP GET of a URL and json_decode of the body. */
    const pages: string -> Page<T>
    /** date('Y-W') when the fetch runs. */
    const week: string
    /** The fetched data, keyed as the URLs are. */
    var data: Assoc<seq<T>>
    /** The cache directory: file name to stored data. */
    var cache: map<string, seq<T>>
    /** The URLs requested from the page source, in order. */
    var requested: seq<string>

    constructor (urls: Assoc<string>, pages: string -> Page<T>, week: string, cache: map<string, seq<T>>)
      ensures this.urls == urls && this.pages == pages && this.week == week && this.cache == cache
      ensures data == [] && requested == []
    {
      this.urls := urls;
      this.pages := pages;
      this.week := week;
      this.cache := cache;
      data := [];
      requested := [];
    }

    /** getData. */
    function GetData(): (r: Assoc<seq<T>>)
      reads this
      ensures r == data
    {
      data
    }

    /**
     * doFetch: a cache hit returns the stored data and requests nothing; a
     * miss requests the pages of the crawl, returns their lists merged in
     * order and stores them under the URL's cache key.
     */
    method DoFetch(url: string) returns (result: seq<T>)
      modifies this`cache, this`requested
      ensures CacheKey(url, week) in old(cache) ==>
        result == old(cache)[CacheKey(url, week)] && requested == old(requested) && cache == old(cache)
      ensures CacheKey(url, week) !in old(cache) ==>
        result == ListsOf(pages, Crawl(pages, url, MaxPages)) &&
        requested == old(requested) + Crawl(pages, url, MaxPages) &&
        cache == old(cache)[CacheKey(url, week) := result]
    {
      var filename := CacheKey(url, week);
      if filename in cache {
        return cache[filename];
      }
      var urlsRequested;
      result, urlsRequested := FetchPages(pages, url);
      requested := requested + urlsRequested;
      cache := cache[filename := result];
    }

    /**
     * fetch: one doFetch per URL of the request, its result stored under the
     * URL's key; keys the request does not have keep their data.
     */
    method Fetch()
      modifies this`data, this`cache, this`requested
      ensures KeySet(data) == old(KeySet(data)) + KeySet(urls)
      ensures forall k :: k !in KeySet(urls) ==> Get(data, k) == old(Get(data, k))
      ensures DistinctKeys(old(data)) ==> DistinctKeys(data)
    {
      ghost var start := data;
      assert urls[..0] == [];
      for i := 0 to |urls|
        invariant StoredUpTo(start, data, urls, i)
      {
        FetchOne(start, i);
      }
      assert urls[..|urls|] == urls;
    }

    /** One pass of fetch's loop: doFetch of URL i, its result stored under the URL's key. */
    method FetchOne(ghost start: Assoc<seq<T>>, i: nat)
      requires i < |urls| && StoredUpTo(start, data, urls, i)
      modifies this`data, this`cache, this`requested
      ensures StoredUpTo(start, data, urls, i + 1)
      ensures CacheKey(urls[i].1, week) in old(cache) ==>
        Get(data, urls[i].0) == Some(old(cache)[CacheKey(urls[i].1, week)])
      ensures CacheKey(urls[i].1, week) !in old(cache) ==>
        Get(data, urls[i].0) == Some(ListsOf(pages, Crawl(pages, urls[i].1, MaxPages)))
    {
      var result := DoFetch(urls[i].1);
      StoreStep(start, data, urls, i, result);
      data := Put(data, urls[i].0, result);
    }
  }

  /**
   * fetch as written: `$this->issueRequest->urls` reads the request's
   * protected `$urls` from outside the request class. That raises an Error
   * before the first URL is fetched, whatever URLs the request holds, so
   * nothing is stored. The corrected Fetcher.Fetch reads the URLs through
   * getUrls().
   */
  function AsWrittenFetch(urls: Assoc<string>): (r: Outcome)
    ensures r.Fail? && r.error == InaccessibleProperty("urls")
  {
    Fail(InaccessibleProperty("urls"))
  }

  /**
   * Even a request with a URL to fetch fails as written, while the first pass
   * of the corrected fetch over the same URLs stores the fetched data under
   * the first URL's key, whatever the data held before.
   */
  lemma AsWrittenFetchFails<T>(urls: Assoc<string>, data: Assoc<seq<T>>, v: seq<T>)
    requires |urls| > 0
    ensures AsWrittenFetch(urls) == Fail(InaccessibleProperty("urls"))
    ensures StoredUpTo(data, Put(data, urls[0].0, v), urls, 1)
    ensures Get(Put(data, urls[0].0, v), urls[0].0) == Some(v)
  {
    assert urls[..0] == [];
    StoreStep(data, data, urls, 0, v);
  }

  /** An issue as the fixed-issue listing returns it: only its last status change is consulted. */
  datatype IssueItem = IssueItem(fieldIssueLastStatusChange: int)

  /** A comment as the recent-comment listing returns it: only its creation time is consulted. */
  datatype CommentItem = CommentItem(created: int)

  /**
   * PHP 8's `$cutoff >= $x` where $x is the property of the last item: on an
   * empty list the item and its property are null, and an integer compared
   * with null compares as booleans, so `true >= false` or `false >= false`
   * holds either way.
   */
  predicate NotNewerThan(cutoff: int, last: Option<int>)
  {
    last.None? || cutoff >= last.value
  }

  /** FixedIssueListFetcher: its cutoff, and isFetchComplete. */
  class FixedIssueListFetcher {
    const oldestDataTimestamp: int

    /** A zero cutoff is replaced by the time three months before now, given here as a parameter. */
    constructor (oldestDataTimestamp: int, threeMonthsAgo: int)
      ensures oldestDataTimestamp != 0 ==> this.oldestDataTimestamp == oldestDataTimestamp
      ensures oldestDataTimestamp == 0 ==> this.oldestDataTimestamp == threeMonthsAgo
    {
      this.oldestDataTimestamp := if oldestDataTimestamp == 0 then threeMonthsAgo else oldestDataTimestamp;
    }

    /** The listing has gone far enough back once its last issue changed status no later than the cutoff. */
    predicate IsFetchComplete(list: seq<IssueItem>)
    {
      NotNewerThan(oldestDataTimestamp,
        if |list| == 0 then None else Some(list[|list| - 1].fieldIssueLastStatusChange))
    }
  }

  /** UserRecentCommentFetcher: its cutoff, and isFetchComplete. */
  class UserRecentCommentFetcher {
    const oldestCommentData: int

    /** A zero cutoff is replaced by the time three months before now, given here as a parameter. */
    constructor (oldestCommentData: int, threeMonthsAgo: int)
      ensures oldestCommentData != 0 ==> this.oldestCommentData == oldestCommentData
      ensures oldestCommentData == 0 ==> this.oldestCommentData == threeMonthsAgo
    {
      this.oldestCommentData := if oldestCommentData == 0 then threeMonthsAgo else oldestCommentData;
    }

    /** The listing has gone far enough back once its last comment was created no later than the cutoff. */
    predicate IsFetchComplete(list: seq<CommentItem>)
    {
      NotNewerThan(oldestCommentData, if |list| == 0 then None else Some(list[|list| - 1].created))
    }
  }

  /**
   * Only the last issue is consulted, an empty list counts as complete, and
   * completion is monotone in the cutoff.
   */
  lemma FixedIssueCompletion(f: FixedIssueListFetcher, g: FixedIssueListFetcher, front: seq<IssueItem>, last: IssueItem)
    ensures f.IsFetchComplete(front + [last]) <==> f.oldestDataTimestamp >= last.fieldIssueLastStatusChange
    ensures f.IsFetchComplete([])
    ensures f.oldestDataTimestamp <= g.oldestDataTimestamp && f.IsFetchComplete(front) ==> g.IsFetchComplete(front)
  {
    assert (front + [last])[|front|] == last;
  }

  /**
   * Only the last comment is consulted, an empty list counts as complete,
   * and completion is monotone in the cutoff.
   */
  lemma CommentCompletion(f: UserRecentCommentFetcher, g: UserRecentCommentFetcher, front: seq<CommentItem>, last: CommentItem)
    ensures f.IsFetchComplete(front + [last]) <==> f.oldestCommentData >= last.created
    ensures f.IsFetchComplete([])
    ensures f.oldestCommentData <= g.oldestCommentData && f.IsFetchComplete(front) ==> g.IsFetchComplete(front)
  {
    assert (front + [last])[|front|] == last;
  }
}
