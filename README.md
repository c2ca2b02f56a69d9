# Pravda archive scraper, modelled in Dafny

This project models the deterministic core of `pravda_scraping.py`, a scraper
that walks the daily archive pages of `https://www.pravda.com.ua`. For every
listing page it builds a table with one row (title, subtitle, date, link) per
article. It then follows the page's "next" button until the button points at
the archive root.

The model has four modules:

- `Wrappers` (`wrappers.dfy`): `Option` and `Result`.
- `DatePattern` (`date_pattern.dfy`): `DATE_PAT = \d{4}/\d{1,2}/\d{1,2}` and
  what `DATE_PAT.search(href).group()` returns. `MatchLenAt` is what a
  backtracking matcher does at one position: a two-digit month first, then a
  one-digit month, and a greedy day. `FindFrom` tries the positions left to
  right. The lemmas show that the result is the leftmost and longest substring
  of the reference shape `DateShaped`.
- `Scraper` (`scraper.dfy`): `_collect_newsitems_gen` and `news_scraper` over a
  `Page`. A `Page` holds what the HTML lookups return: the next button's href,
  and for each article fragment its anchor, anchor href, time text and
  subtitle text. A lookup that finds nothing is `None`. Where the source lets
  the exception escape, the model returns a `ParseError` saying which lookup
  failed and in which fragment. The date fallback is the one case the source
  recovers from.
- `Crawler` (`crawler.dfy`): `news_to_df`. `CrawlFrom` specifies the loop with
  a page bound. `NewsToDf` and `CrawlInto` are the imperative loop, which
  appends to a `TableList` object. That object is the caller's `data` list
  when the list is non-empty, and a fresh list otherwise, as `data or []`
  does.

Every lookup failure the code lets escape is modelled, not only the missing
subtitle. A fragment with no time element, no anchor, or an anchor without
`href` also fails the page. Line 44 is outside the `try`.
`None["href"]` raises `TypeError` and a missing attribute raises `KeyError`.
Neither is the caught `AttributeError`.

## Model

| member | source | states |
|---|---|---|
| DatePattern.MatchLenAt | pravda_scraping.py:11 | The backtracking matcher at one position: a match is 8 to 10 characters long and lies within the href. That it is the longest date-shaped match there is `MatchAtIsLongestShape`. |
| DatePattern.MatchAtIsLongestShape | pravda_scraping.py:11 | At one position, the backtracking choice (two-digit month before one-digit month, two-digit day before one-digit day) is a match of `\d{4}/\d{1,2}/\d{1,2}`. It is the longest match starting there. When it reports no match, none starts there. |
| DatePattern.FindFrom | pravda_scraping.py:47 | The search result is the first position at or after the start where the pattern matches. Every earlier position fails. None means no position matches. |
| DatePattern.DateText | pravda_scraping.py:47 | `DATE_PAT.search(href).group()`: Some exactly when the search finds a position, and then a date-shaped text read from the href where the search landed. Leftmost and longest are `DateTextIsLeftmostLongest`. |
| DatePattern.DateTextIsLeftmostLongest | pravda_scraping.py:47 | `search(...).group()` gives Some exactly when the href contains a date-shaped substring. The result occurs in the href, is date-shaped, starts at the leftmost such position, and is the longest one there. |
| DatePattern.DayLen | pravda_scraping.py:11 | The greedy `\d{1,2}` takes at most two digits. It stops before a non-digit and takes two whenever two are available. |
| DatePattern.ExampleArticleHref | pravda_scraping.py:47 | `/articles/2019/09/10/7227374/` yields `2019/09/10`: the day takes both digits. |
| DatePattern.ExampleOneDigitMonth | pravda_scraping.py:11 | `12019/9/1x` yields `2019/9/1`. Position 0 fails, the month backtracks to one digit, and the day stops before `x`. |
| DatePattern.ExampleNoDate | pravda_scraping.py:46-49 | `/news/123` has no match. |
| Scraper.DateField | pravda_scraping.py:46-49 | The `date` column, including the fallback when the href holds no date. The function carries no contract of its own; `DateFieldCases` states both cases. |
| Scraper.DateFieldCases | pravda_scraping.py:46-49 | With a match `m`, the date column is `m + " " + time`. Without one, it is exactly `"missing date " + time`. The column starts with `missing date ` exactly when there is no match, and it always ends with the time. |
| Scraper.ArticleLink | pravda_scraping.py:55 | The `link` column is the href itself or the href behind `BASE_URL`. Which one, and idempotence, are `ArticleLinkAbsolute`. |
| Scraper.ArticleLinkAbsolute | pravda_scraping.py:55 | An href starting with `/` becomes `BASE_URL + href`, which starts with `BASE_URL/` and gives back the href. Any other href, including the empty one, is kept unchanged. Applying the rule twice changes nothing more. |
| Scraper.NextPageUrl | pravda_scraping.py:80 | The next-page URL always starts with `BASE_URL`, and the href follows it unchanged. |
| Scraper.NextPageUrlAlwaysPrefixed | pravda_scraping.py:80 | For an href starting with `/`, the next-page rule and the article-link rule agree. For every other href, absolute links to other hosts and the empty href included, they differ: the next-page rule still prefixes it. |
| Scraper.NewsItem | pravda_scraping.py:42-56 | A fragment's record exists exactly when its time, anchor, href and subtitle are all present. It is then (anchor text, subtitle, date column, link column), whether or not the href holds a date. Otherwise the error names the first failing lookup in source order. |
| Scraper.CollectNewsItems | pravda_scraping.py:42-56 | The table exists exactly when every fragment's record exists. It then has one record per fragment, in fragment order. Otherwise the error is the first failing fragment's index and lookup, and every earlier fragment succeeded. |
| Scraper.NewsScraper | pravda_scraping.py:75-80 | A missing next button fails the page before any article is read. Otherwise the table is the collected records, one per fragment, and the URL is `BASE_URL` plus the button's href. Otherwise the table's error is returned. |
| Scraper.ExampleLinks | pravda_scraping.py:55 | `/news/123` becomes `https://www.pravda.com.ua/news/123`. An absolute link is kept unchanged. |
| Scraper.ExampleRecord | pravda_scraping.py:43-55 | A fragment with href `/articles/2019/09/10/7227374/` and time `14:30` gets date `2019/09/10 14:30` and the absolute link. |
| Crawler.SiteOracle | pravda_scraping.py:108-109 | One fetch-and-parse, `news_scraper(read_page(url))`, over a site given as its pages. The function carries no contract of its own; `SiteOracleStep` states what it gives. |
| Crawler.SiteOracleStep | pravda_scraping.py:75-80 | Fetching a URL fails with the missing-button error exactly when the page has no next-page button, and succeeds exactly when the button is there and every record exists. A parsed page gives one record per fragment and a next-page URL starting with `BASE_URL`. |
| Crawler.CrawlFrom | pravda_scraping.py:103-114 | The loop's specification with a page bound: at most that many pages are fetched, `start_url` first, and every fetched page adds one table except the failing page of an aborted crawl. |
| Crawler.CrawlShape | pravda_scraping.py:103-114 | The first URL fetched is `start_url`, even when it equals `end_url`, and `end_url` is never fetched after the start. Every fetched page adds one table except the failing page of an aborted crawl. Only a crawl that ran out of its bound is unfinished. |
| Crawler.CrawlFollowsNextLinks | pravda_scraping.py:105-114 | Each URL after the first is the next URL parsed from the page before it, and that page's table is the one recorded for it. |
| Crawler.CrawlLastPage | pravda_scraping.py:105-112 | A finished crawl's last page parses to the last table and points at `end_url`. An aborted crawl's last page is the one whose parse failed, with that error. |
| Crawler.CrawlOfChain | pravda_scraping.py:105-118 | A chain of N pages, each pointing at the next and the last at `end_url`, is crawled in full: its N URLs in order and its N tables, then finished. |
| Crawler.CrawlFuelIrrelevant | pravda_scraping.py:105-116 | A crawl that finishes or aborts within a bound gives the same result under every larger bound, so the bound only stands in for the unbounded loop. |
| Crawler.ExampleThreePages | pravda_scraping.py:102-118 | Three pages then the archive root give exactly three tables in fetch order, under every bound of at least three. |
| Crawler.NewsToDf | pravda_scraping.py:83-118 | `news_to_df` returns the caller's list extended in place when it is non-empty, and a fresh list when it is `None` or empty; in the fresh case the caller's list is untouched. The result holds the old contents followed by one table per parsed page, in fetch order. The fetched URLs and the stopping parse error are those of `CrawlFrom`. |
| Crawler.CrawlInto | pravda_scraping.py:103-116 | The loop adds to the list exactly the tables of `CrawlFrom`, fetches exactly its URLs, and stops with its parse error or on the end marker. |
| Crawler.TableList.Append | pravda_scraping.py:110 | `data.append(df)` adds the table at the end. |
| Crawler.TableList.constructor | pravda_scraping.py:102 | The fresh list `[]` is empty. |

## Left out

- `read_page` and `requests.get` (lines 14-25) are network I/O. Together with the parse they become the oracle `scrape`, which has `SiteOracle` as its page-model instance. Transport errors are not modelled, and the site is assumed not to change during a crawl.
- BeautifulSoup and its CSS selectors (lines 75-78, 43-44, 53) are a foreign HTML library. A page is given as the lookups' results (`Page`, `Fragment`, `Link`), and the text extraction (`.text`) is not modelled.
- `\d` is modelled as the ASCII digits `0`-`9`. For `str` patterns, Python's `re` also matches the other Unicode decimal digits.
- pandas `DataFrame` construction (line 79) is not modelled: a table is the sequence of its records, and column naming and dtypes are left out.
- `sleep(uniform(1, 3))` (line 116) is a random delay with no effect on the result. `print` (lines 106, 113) is a diagnostic side effect. Both are left out.
- The loop itself is unbounded. `NewsToDf` takes a ghost bound within which the crawl must end, so an endless crawl (a site that never links to `end_url`) is not modelled.
- A parse error raises in the source, so the caller gets no return value. The model returns the error next to the list. When the caller's list was non-empty it is that same object, extended with the tables of the pages parsed before the failure.
- `end_url`'s default is the constant `END_URL`. Dafny callers pass it explicitly.
- The lazy generator of `_collect_newsitems_gen` is consumed whole by the table constructor, so it is modelled as one function over the fragment sequence.
