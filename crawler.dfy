/**
 * `news_to_df`: fetch a page, parse it, append its table, and stop right after
 * the first page whose next-page URL is the end marker.
 *
 * Fetching and parsing one URL, `news_scraper(read_page(url))`, is an abstract
 * oracle `scrape` from a URL to the page's table and next-page URL, or to the
 * parse error that the source raises (the site is taken not to change during
 * a crawl).  `SiteOracle` builds that oracle from the page model of `Scraper`.
 * `CrawlFrom` is the specification of the loop with a bound on the number of
 * pages; the method `NewsToDf` runs the loop itself and is proved to do what
 * `CrawlFrom` says for any bound within which the crawl ends.
 */
module Crawler {
  import opened Wrappers
  import opened Scraper

  /** The default end marker: the archive root. */
  const END_URL := "https://www.pravda.com.ua/archives/"

  /** What one fetch-and-parse of a URL gives. */
  type Oracle = string -> Result<(Table, string), ParseError>

  /** The oracle of a site whose page at each URL is `site(url)`. */
  function SiteOracle(site: string -> Page): Oracle
  {
    url => NewsScraper(site(url))
  }

  /**
   * Fetching a URL of the site fails exactly when its page has no next-page
   * button or one of its records fails; a parsed page gives one record per
   * fragment and a next-page URL on the site.
   */
  lemma SiteOracleStep(site: string -> Page, url: string)
    ensures SiteOracle(site)(url) == Failure(NoNextLink) <==> site(url).nextHref.None?
    ensures SiteOracle(site)(url).Success? <==>
      site(url).nextHref.Some? && CollectNewsItems(site(url).articles).Success?
    ensures SiteOracle(site)(url).Success? ==>
      var (table, next) := SiteOracle(site)(url).value;
      |table| == |site(url).articles| && BASE_URL <= next
  {
  }

  datatype Status = Finished | Aborted(error: ParseError) | Unfinished

  /** The URLs fetched, one table per parsed page, and how the crawl ended. */
  datatype Crawl = Crawl(fetched: seq<string>, tables: seq<Table>, status: Status)

  /**
   * The crawl from `url`, fetching at most `fuel` pages: `url` first, and one
   * table per fetched page except a page that failed to parse.
   */
  function CrawlFrom(scrape: Oracle, url: string, endUrl: string, fuel: nat): (c: Crawl)
    ensures |c.fetched| <= fuel
    ensures fuel > 0 ==> |c.fetched| > 0 && c.fetched[0] == url
    ensures |c.tables| + (if c.status.Aborted? then 1 else 0) == |c.fetched|
    decreases fuel
  {
    if fuel == 0 then Crawl([], [], Unfinished)
    else
      var parsed := scrape(url);
      if parsed.Failure? then Crawl([url], [], Aborted(parsed.error))
      else
        var (table, next) := parsed.value;
        if next == endUrl then Crawl([url], [table], Finished)
        else
          var rest := CrawlFrom(scrape, next, endUrl, fuel - 1);
          Crawl([url] + rest.fetched, [table] + rest.tables, rest.status)
  }

  /**
   * The first URL fetched is `url`, even when it is the end marker; later URLs
   * are never the end marker.  Every fetched page contributes one table except
   * the page of an aborted crawl that failed to parse; only a crawl that used
   * up its bound is unfinished.
   */
  lemma {:induction false} CrawlShape(scrape: Oracle, url: string, endUrl: string, fuel: nat)
    ensures var c := CrawlFrom(scrape, url, endUrl, fuel);
      && (fuel > 0 ==> |c.fetched| > 0 && c.fetched[0] == url)
      && |c.fetched| <= fuel
      && (c.status.Unfinished? ==> |c.fetched| == fuel)
      && |c.tables| + (if c.status.Aborted? then 1 else 0) == |c.fetched|
      && (forall k :: 1 <= k < |c.fetched| ==> c.fetched[k] != endUrl)
    decreases fuel
  {
    var parsed := scrape(url);
    if fuel > 0 && parsed.Success? && parsed.value.1 != endUrl {
      var next := parsed.value.1;
      CrawlShape(scrape, next, endUrl, fuel - 1);
      var rest := CrawlFrom(scrape, next, endUrl, fuel - 1);
      var c := CrawlFrom(scrape, url, endUrl, fuel);
      assert c.fetched == [url] + rest.fetched;
      forall k | 1 <= k < |c.fetched| ensures c.fetched[k] != endUrl {
        assert c.fetched[k] == rest.fetched[k - 1];
      }
    }
  }

  /**
   * Each URL after the first is the next-page URL parsed from the page before
   * it, whose table is the one recorded for it.
   */
  lemma {:induction false} CrawlFollowsNextLinks(scrape: Oracle, url: string, endUrl: string, fuel: nat)
    ensures var c := CrawlFrom(scrape, url, endUrl, fuel);
      |c.tables| + (if c.status.Aborted? then 1 else 0) == |c.fetched|
    ensures var c := CrawlFrom(scrape, url, endUrl, fuel);
      forall k :: 0 <= k < |c.fetched| - 1 ==>
        scrape(c.fetched[k]) == Success((c.tables[k], c.fetched[k + 1]))
    decreases fuel
  {
    CrawlShape(scrape, url, endUrl, fuel);
    var parsed := scrape(url);
    if fuel > 0 && parsed.Success? && parsed.value.1 != endUrl {
      var (table, next) := parsed.value;
      CrawlFollowsNextLinks(scrape, next, endUrl, fuel - 1);
      CrawlShape(scrape, next, endUrl, fuel - 1);
      var rest := CrawlFrom(scrape, next, endUrl, fuel - 1);
      var c := CrawlFrom(scrape, url, endUrl, fuel);
      assert c.fetched == [url] + rest.fetched && c.tables == [table] + rest.tables;
      if |rest.fetched| > 0 {
        assert c.fetched[1] == rest.fetched[0];
      }
      forall k | 1 <= k < |c.fetched| - 1
        ensures scrape(c.fetched[k]) == Success((c.tables[k], c.fetched[k + 1]))
      {
        assert c.fetched[k] == rest.fetched[k - 1] && c.fetched[k + 1] == rest.fetched[k];
        assert c.tables[k] == rest.tables[k - 1];
      }
    }
  }

  /**
   * A finished crawl's last page points at the end marker, and its table is
   * the last one; an aborted crawl's last page is the one that failed to parse.
   */
  lemma {:induction false} CrawlLastPage(scrape: Oracle, url: string, endUrl: string, fuel: nat)
    ensures var c := CrawlFrom(scrape, url, endUrl, fuel);
      && |c.tables| + (if c.status.Aborted? then 1 else 0) == |c.fetched|
      && (!c.status.Unfinished? ==> |c.fetched| > 0)
    ensures var c := CrawlFrom(scrape, url, endUrl, fuel);
      && (c.status.Finished? ==>
            scrape(c.fetched[|c.fetched| - 1]) == Success((c.tables[|c.fetched| - 1], endUrl)))
      && (c.status.Aborted? ==>
            scrape(c.fetched[|c.fetched| - 1]) == Failure(c.status.error))
    decreases fuel
  {
    var parsed := scrape(url);
    if fuel > 0 && parsed.Success? && parsed.value.1 != endUrl {
      var (table, next) := parsed.value;
      CrawlLastPage(scrape, next, endUrl, fuel - 1);
      var rest := CrawlFrom(scrape, next, endUrl, fuel - 1);
      var c := CrawlFrom(scrape, url, endUrl, fuel);
      assert c.fetched == [url] + rest.fetched && c.tables == [table] + rest.tables;
      assert c.status == rest.status;
      if !rest.status.Unfinished? {
        assert c.fetched[|c.fetched| - 1] == rest.fetched[|rest.fetched| - 1];
        if rest.status.Finished? {
          assert c.tables[|c.tables| - 1] == rest.tables[|rest.tables| - 1];
        }
      }
    }
  }

  /**
   * Conversely, a chain of pages, each pointing at the next and the last at
   * the end marker, is crawled in full: its URLs in order, one table each.
   */
  lemma {:induction false} CrawlOfChain(scrape: Oracle, urls: seq<string>, tables: seq<Table>, endUrl: string, fuel: nat)
    requires 0 < |tables| && |urls| == |tables| + 1
    requires forall k :: 0 <= k < |tables| ==> scrape(urls[k]) == Success((tables[k], urls[k + 1]))
    requires forall k :: 1 <= k < |tables| ==> urls[k] != endUrl
    requires urls[|tables|] == endUrl
    requires |tables| <= fuel
    ensures CrawlFrom(scrape, urls[0], endUrl, fuel) == Crawl(urls[..|tables|], tables, Finished)
    decreases |tables|
  {
    assert scrape(urls[0]) == Success((tables[0], urls[1]));
    if |tables| > 1 {
      CrawlOfChain(scrape, urls[1..], tables[1..], endUrl, fuel - 1);
      assert urls[..|tables|] == [urls[0]] + urls[1..][..|tables| - 1];
      assert tables == [tables[0]] + tables[1..];
    }
  }

  /** Once a crawl ends within some bound, a larger bound gives the same crawl. */
  lemma {:induction false} CrawlFuelIrrelevant(scrape: Oracle, url: string, endUrl: string, n: nat, m: nat)
    requires n <= m
    requires !CrawlFrom(scrape, url, endUrl, n).status.Unfinished?
    ensures CrawlFrom(scrape, url, endUrl, m) == CrawlFrom(scrape, url, endUrl, n)
    decreases n
  {
    var parsed := scrape(url);
    if parsed.Success? && parsed.value.1 != endUrl {
      CrawlFuelIrrelevant(scrape, parsed.value.1, endUrl, n - 1, m - 1);
    }
  }

  /**
   * Three pages chained by their next-page buttons, the last pointing at the
   * archive root: every large enough bound gives exactly three tables, in
   * fetch order.
   */
  lemma ExampleThreePages(site: string -> Page, fuel: nat)
    requires site("a") == Page(Some("/b"), [])
    requires site(BASE_URL + "/b") == Page(Some("/c"), [])
    requires site(BASE_URL + "/c") == Page(Some("/archives/"), [])
    requires fuel >= 3
    ensures CrawlFrom(SiteOracle(site), "a", END_URL, fuel)
         == Crawl(["a", BASE_URL + "/b", BASE_URL + "/c"], [[], [], []], Finished)
  {
    var scrape := SiteOracle(site);
    assert BASE_URL + "/archives/" == END_URL;
    assert BASE_URL + "/b" != END_URL && BASE_URL + "/c" != END_URL;
    var c3 := CrawlFrom(scrape, "a", END_URL, 3);
    assert c3 == Crawl(["a", BASE_URL + "/b", BASE_URL + "/c"], [[], [], []], Finished);
    CrawlFuelIrrelevant(scrape, "a", END_URL, 3, fuel);
  }

  /** The caller's list of tables, which `news_to_df` may extend in place. */
  class TableList {
    var items: seq<Table>

    constructor ()
      ensures items == []
    {
      items := [];
    }

    /** `list.append`. */
    method Append(t: Table)
      modifies this
      ensures items == old(items) + [t]
    {
      items := items + [t];
    }
  }

  /**
   * `news_to_df`.  A missing or empty `data` is replaced by a fresh list; a
   * non-empty one is extended in place and returned.  The tables appended, the
   * URLs fetched and the parse error that stops the crawl (the source raises
   * it) are those of `CrawlFrom`, for any `fuel` within which the crawl ends.
   */
  method NewsToDf(scrape: Oracle, startUrl: string, endUrl: string, data: TableList?, ghost fuel: nat)
    returns (out: TableList, failure: Option<ParseError>, ghost fetched: seq<string>)
    requires !CrawlFrom(scrape, startUrl, endUrl, fuel).status.Unfinished?
    modifies data
    ensures data != null && old(data.items) != [] ==> out == data
    ensures data == null || old(data.items) == [] ==> fresh(out)
    ensures data != null && out != data ==> data.items == old(data.items)
    ensures var c := CrawlFrom(scrape, startUrl, endUrl, fuel);
      && out.items == (if data == null then [] else old(data.items)) + c.tables
      && fetched == c.fetched
      && failure == (if c.status.Aborted? then Some(c.status.error) else None)
  {
    if data != null && data.items != [] {
      out := data;
    } else {
      out := new TableList();
    }
    failure, fetched := CrawlInto(scrape, startUrl, endUrl, out, fuel);
  }

  /**
   * The loop of `news_to_df`: starting at `startUrl`, fetch and parse a page,
   * append its table to `out`, and stop after the page whose next-page URL is
   * `endUrl`, or at the first page that fails to parse.
   */
  method CrawlInto(scrape: Oracle, startUrl: string, endUrl: string, out: TableList, ghost fuel: nat)
    returns (failure: Option<ParseError>, ghost fetched: seq<string>)
    requires !CrawlFrom(scrape, startUrl, endUrl, fuel).status.Unfinished?
    modifies out
    ensures var c := CrawlFrom(scrape, startUrl, endUrl, fuel);
      && out.items == old(out.items) + c.tables
      && fetched == c.fetched
      && failure == (if c.status.Aborted? then Some(c.status.error) else None)
  {
    ghost var tables: seq<Table> := [];
    ghost var left := fuel;
    ghost var whole := CrawlFrom(scrape, startUrl, endUrl, fuel);
    fetched := [];
    var nextPage := startUrl;
    while true
      invariant out.items == old(out.items) + tables
      invariant whole.fetched == fetched + CrawlFrom(scrape, nextPage, endUrl, left).fetched
      invariant whole.tables == tables + CrawlFrom(scrape, nextPage, endUrl, left).tables
      invariant whole.status == CrawlFrom(scrape, nextPage, endUrl, left).status
      decreases left
    {
      assert left > 0;
      ghost var rest := CrawlFrom(scrape, nextPage, endUrl, left);
      fetched := fetched + [nextPage];
      var parsed := scrape(nextPage);
      if parsed.Failure? {
        assert rest == Crawl([nextPage], [], Aborted(parsed.error));
        failure := Some(parsed.error);
        return;
      }
      var table, next := parsed.value.0, parsed.value.1;
      out.Append(table);
      tables := tables + [table];
      if next == endUrl {
        assert rest == Crawl([nextPage], [table], Finished);
        failure := None;
        return;
      }
      ghost var rest' := CrawlFrom(scrape, next, endUrl, left - 1);
      assert rest.fetched == [nextPage] + rest'.fetched && rest.tables == [table] + rest'.tables;
      assert whole.fetched == fetched + rest'.fetched;
      assert whole.tables == tables + rest'.tables;
      nextPage := next;
      left := left - 1;
    }
  }
}
