/**
 * One archive listing page: the record built for each article fragment
 * (`_collect_newsitems_gen`) and the next-page link (`news_scraper`).
 *
 * The HTML parser is not modelled.  A page is what its lookups return: the
 * href of the next-page button, and per article fragment its first anchor
 * (text and href), the text of its time element and the text of its subtitle
 * element.  A lookup that finds nothing is `None`; where the source lets the
 * resulting exception escape, the model returns a `ParseError`.
 */
module Scraper {
  import opened Wrappers
  import opened DatePattern

  const BASE_URL := "https://www.pravda.com.ua"

  /** Text and (possibly missing) href attribute of an article's first anchor. */
  datatype Link = Link(text: string, href: Option<string>)

  /** One child of the "all news" container, as the lookups see it. */
  datatype Fragment = Fragment(anchor: Option<Link>, time: Option<string>, subtitle: Option<string>)

  /** A listing page: the next-page button's href and the article fragments in markup order. */
  datatype Page = Page(nextHref: Option<string>, articles: seq<Fragment>)

  /** One row of a page's table. */
  datatype Record = Record(title: string, subtitle: string, date: string, link: string)

  type Table = seq<Record>

  /** The lookup of one fragment that found nothing. */
  datatype Lookup = TimeLookup | AnchorLookup | HrefLookup | SubtitleLookup

  /** Why a page could not be turned into a table. */
  datatype ParseError = NoNextLink | FragmentError(index: nat, lookup: Lookup)

  /** The literal fallback used when the href holds no date. */
  const MISSING_DATE := "missing date "

  /** The `date` column: the date found in the href and the time, or the fallback. */
  function DateField(href: string, time: string): string
  {
    match DateText(href)
    case Some(m) => m + " " + time
    case None => MISSING_DATE + time
  }

  /**
   * The date column is the match, one space and the time when the href holds a
   * date, and exactly "missing date " and the time when it does not; the two
   * cases can be told apart by the prefix, and the time always ends the column.
   */
  lemma DateFieldCases(href: string, time: string)
    ensures var r := DateField(href, time);
      && (DateText(href).None? <==> MISSING_DATE <= r)
      && (DateText(href).None? ==> r == MISSING_DATE + time)
      && (DateText(href).Some? ==>
            var m := DateText(href).value;
            DateShaped(m) && r == m + " " + time && r[..|m|] == m && r[|m|] == ' ')
      && |time| <= |r| && r[|r| - |time|..] == time
  {
    DateTextIsLeftmostLongest(href);
    var r := DateField(href, time);
    if DateText(href).Some? {
      var m := DateText(href).value;
      assert IsDigit(m[0]);
      assert r[0] == m[0];
      assert MISSING_DATE[0] == 'm';
    }
  }

  /**
   * The `link` column: site-relative hrefs get the base URL in front.  The
   * link is the href itself or the href behind the base URL.
   */
  function ArticleLink(href: string): (r: string)
    ensures r == href || r == BASE_URL + href
  {
    if 0 < |href| && href[0] == '/' then BASE_URL + href else href
  }

  /**
   * A site-relative href (one that starts with '/') becomes the base URL and
   * the href, an absolute link from which the href reads back; any other href,
   * the empty one included, is kept; linking a link changes nothing.
   */
  lemma ArticleLinkAbsolute(href: string)
    ensures 0 < |href| && href[0] == '/' ==>
      && ArticleLink(href) == BASE_URL + href
      && BASE_URL + "/" <= ArticleLink(href) && ArticleLink(href)[|BASE_URL|..] == href
    ensures !(0 < |href| && href[0] == '/') ==> ArticleLink(href) == href
    ensures ArticleLink(ArticleLink(href)) == ArticleLink(href)
  {
  }

  /** The next-page URL: the base URL and the href, whatever the href is. */
  function NextPageUrl(href: string): (r: string)
    ensures BASE_URL <= r && r[|BASE_URL|..] == href
  {
    BASE_URL + href
  }

  /**
   * Next-page hrefs are always prefixed, article hrefs only when relative:
   * any other href is kept by one rule and prefixed by the other.
   */
  lemma NextPageUrlAlwaysPrefixed(href: string)
    ensures 0 < |href| && href[0] == '/' ==> NextPageUrl(href) == ArticleLink(href)
    ensures !(0 < |href| && href[0] == '/') ==> NextPageUrl(href) != ArticleLink(href)
  {
    assert |NextPageUrl(href)| > |href|;
  }

  /**
   * The record of one fragment, in the order the source performs its lookups:
   * the time text first, then the anchor and its href (both outside the
   * fallback's reach), then the subtitle.  A date that cannot be found does not
   * fail the record.
   */
  function NewsItem(f: Fragment): (r: Result<Record, Lookup>)
    ensures r.Success? <==> f.time.Some? && f.anchor.Some? && f.anchor.value.href.Some? && f.subtitle.Some?
    ensures r.Success? ==>
      var href, time := f.anchor.value.href.value, f.time.value;
      r.value == Record(f.anchor.value.text, f.subtitle.value, DateField(href, time), ArticleLink(href))
    ensures r.Failure? ==>
      r.error == if f.time.None? then TimeLookup
                 else if f.anchor.None? then AnchorLookup
                 else if f.anchor.value.href.None? then HrefLookup
                 else SubtitleLookup
  {
    match f.time
    case None => Failure(TimeLookup)
    case Some(time) =>
      match f.anchor
      case None => Failure(AnchorLookup)
      case Some(a) =>
        match a.href
        case None => Failure(HrefLookup)
        case Some(href) =>
          match f.subtitle
          case None => Failure(SubtitleLookup)
          case Some(sub) => Success(Record(a.text, sub, DateField(href, time), ArticleLink(href)))
  }

  /**
   * `r` is what the table of `articles` must be: one record per fragment, in
   * fragment order, when every record exists; otherwise the error of the first
   * fragment whose record fails.
   */
  predicate IsTableOf(articles: seq<Fragment>, r: Result<Table, ParseError>)
  {
    && (r.Success? <==> forall k :: 0 <= k < |articles| ==> NewsItem(articles[k]).Success?)
    && (r.Success? ==>
          && |r.value| == |articles|
          && forall k :: 0 <= k < |articles| ==> r.value[k] == NewsItem(articles[k]).value)
    && (r.Failure? ==>
          && r.error.FragmentError?
          && r.error.index < |articles|
          && NewsItem(articles[r.error.index]) == Failure(r.error.lookup)
          && forall j :: 0 <= j < r.error.index ==> NewsItem(articles[j]).Success?)
  }

  /** Putting a fragment whose record exists in front of a table's fragments. */
  lemma TableCons(articles: seq<Fragment>, rest: Result<Table, ParseError>)
    requires |articles| > 0 && NewsItem(articles[0]).Success?
    requires IsTableOf(articles[1..], rest)
    ensures IsTableOf(articles,
      if rest.Failure? then Failure(FragmentError(rest.error.index + 1, rest.error.lookup))
      else Success([NewsItem(articles[0]).value] + rest.value))
  {
    var tail := articles[1..];
    var rec := NewsItem(articles[0]).value;
    if rest.Failure? {
      var i := rest.error.index;
      assert articles[i + 1] == tail[i];
      forall j | 0 <= j < i + 1 ensures NewsItem(articles[j]).Success? {
        if j > 0 {
          assert articles[j] == tail[j - 1];
        }
      }
    } else {
      var t := [rec] + rest.value;
      forall k | 0 <= k < |articles| ensures NewsItem(articles[k]).Success? && t[k] == NewsItem(articles[k]).value {
        if k > 0 {
          assert articles[k] == tail[k - 1];
          assert t[k] == rest.value[k - 1];
        }
      }
    }
  }

  /**
   * The page's table: one record per fragment, in fragment order.  The first
   * fragment whose record fails fails the whole table.
   */
  function CollectNewsItems(articles: seq<Fragment>): (r: Result<Table, ParseError>)
    ensures r.Success? <==> forall k :: 0 <= k < |articles| ==> NewsItem(articles[k]).Success?
    ensures r.Success? ==>
      && |r.value| == |articles|
      && forall k :: 0 <= k < |articles| ==> r.value[k] == NewsItem(articles[k]).value
    ensures r.Failure? ==>
      && r.error.FragmentError?
      && r.error.index < |articles|
      && NewsItem(articles[r.error.index]) == Failure(r.error.lookup)
      && forall j :: 0 <= j < r.error.index ==> NewsItem(articles[j]).Success?
  {
    if articles == [] then Success([])
    else
      var item := NewsItem(articles[0]);
      if item.Failure? then Failure(FragmentError(0, item.error))
      else
        var rest := CollectNewsItems(articles[1..]);
        TableCons(articles, rest);
        if rest.Failure? then Failure(FragmentError(rest.error.index + 1, rest.error.lookup))
        else Success([item.value] + rest.value)
  }

  /**
   * `news_scraper`: the next-page button is looked up first, then the table is
   * built; on success the pair is the table and the prefixed next-page URL.
   */
  function NewsScraper(page: Page): (r: Result<(Table, string), ParseError>)
    ensures r == Failure(NoNextLink) <==> page.nextHref.None?
    ensures r.Success? <==> page.nextHref.Some? && CollectNewsItems(page.articles).Success?
    ensures r.Success? ==>
      && r.value.0 == CollectNewsItems(page.articles).value
      && |r.value.0| == |page.articles|
      && r.value.1 == NextPageUrl(page.nextHref.value)
    ensures r.Failure? && page.nextHref.Some? ==> r.error == CollectNewsItems(page.articles).error
  {
    match page.nextHref
    case None => Failure(NoNextLink)
    case Some(href) =>
      match CollectNewsItems(page.articles)
      case Failure(e) => Failure(e)
      case Success(table) => Success((table, NextPageUrl(href)))
  }

  /** A relative article link and an absolute one. */
  lemma ExampleLinks()
    ensures ArticleLink("/news/123") == "https://www.pravda.com.ua/news/123"
    ensures ArticleLink("https://www.epravda.com.ua/news/1") == "https://www.epravda.com.ua/news/1"
  {
  }

  /** An article dated in its href, with time "14:30". */
  lemma ExampleRecord(href: string)
    requires href == "/articles/2019/09/10/7227374/"
    ensures NewsItem(Fragment(Some(Link("Title", Some(href))), Some("14:30"), Some("Sub")))
         == Success(Record("Title", "Sub", "2019/09/10 14:30", "https://www.pravda.com.ua" + href))
  {
    ExampleArticleHref(href);
    assert DateField(href, "14:30") == "2019/09/10" + " " + "14:30" == "2019/09/10 14:30";
    assert ArticleLink(href) == BASE_URL + href;
  }
}
