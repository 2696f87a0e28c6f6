# IMDb top-250 explorer (movie.py), modelled in Dafny

movie.py builds a catalog of the IMDb top-250 chart and then answers commands
in a console loop. To build the catalog it downloads the chart page and every
movie's detail page, and it keeps each downloaded body in a URL-keyed cache
that is saved to a JSON file. It stores the catalog in SQLite and draws five
bar charts from grouped-count queries:

- directors and actors with more than two credits (a name listed twice for one movie counts twice);
- genres;
- content ratings;
- publication years.

The model covers four parts:

- **FetchCache** (`fetch_cache.dfy`) models `make_url_request_using_cache`.
  - `UrlCache` is a class holding the cache dictionary, its saved copy and the
    log of URLs sent to the network. `Get` is the cached request.
  - `Request` and `RequestAll` give the same behaviour as values. Lemmas show
    that a request made twice hits the cache, and that over any sequence of
    requests each URL reaches the network at most once.
- **Catalog** (`catalog.dfy`) models `build_movie_dict` and the global
  dictionary `top_movies`.
  - `MovieCatalog` is a class holding the records and their insertion order.
  - Pass 1 (`AddListing`) stores one record per listing entry. A later entry
    with the same name replaces the earlier record but keeps its position.
  - Pass 2 (`AddDetails` and the loop `DetailAll`) fetches each record's page
    through the cache and merges in the fields `Derive` computes from the
    page's linked-data block.
    - A multi-valued field is joined with ", ".
    - A single director object or single genre string is copied as it is.
    - A missing content rating becomes "NA".
- **Reports** (`reports.dfy`) models the five chart queries over the column
  values they read.
  - It models the recursive split of a ", "-joined column: SQLite's
    `substr(str, 0, instr(str, ','))` is the text before the first comma.
  - Then it models the `word != ''` filter, `ltrim`, `GROUP BY` with
    `COUNT(*)`, `HAVING COUNT(*) > 2`, `ORDER BY COUNT(*) DESC` and
    `SUBSTR(date, 1, 4)`.
  - Lemmas connect it back to the catalog: splitting a joined field gives
    back the names it was built from, provided each name is non-empty, has
    no comma and does not start with a space. So for such names the
    director chart counts each director once per credit.
- **Console** (`console.dfy`) models `interactive_prompt`.
  - `Dispatch` applies the checks of one loop pass in the program's order.
  - `InteractivePrompt` is the loop. It runs over a sequence of input lines
    and returns the trace of actions.

`Collections`, `Text` and `Wrappers` hold the shared helpers:

- the `Unique` predicate on sequences;
- `", ".join` as `Join`;
- `ltrim` as `LTrim`;
- `Option`.

## Model

| member | source | states |
|---|---|---|
| FetchCache.UrlCache.Get | movie.py:54-63 | A cached URL returns its stored body and changes nothing. An uncached URL is fetched once and stored, and the file copy is rewritten to match. The log of network requests grows by that URL and stays free of repetitions. |
| FetchCache.UrlCache.constructor | movie.py:14-35 | The cache and its file copy start as the dictionary given as loaded from the file, with nothing fetched yet. |
| FetchCache.Request | movie.py:54-63 | One call on a given cache, as a value: a hit returns the stored body and keeps the cache, a miss stores and returns the fetched body. `UrlCache.Get` is proved equal to it, and the lemmas below state its properties. |
| FetchCache.RequestAll | movie.py:54-63 | A series of calls in order, such as pass 2's. It returns the bodies, the final cache and the URLs sent to the network. Its properties are the lemmas below. |
| FetchCache.RequestAllSnoc | movie.py:54-63 | One more call at the end of a series continues from the cache the series left behind. |
| FetchCache.RequestIdempotent | movie.py:54-63 | Requesting a URL a second time returns the first body and leaves the cache as it was, whatever the network would answer now. |
| FetchCache.RequestAllFetchesOnce | movie.py:54-63 | Over any sequence of requests, the URLs sent to the network are exactly the requested URLs missing from the starting cache, each sent once. |
| FetchCache.RequestAllCache | movie.py:54-63 | Each request returns the final cache's body for its URL. The final cache keeps every starting entry and adds the fetched body of each other requested URL. |
| Catalog.Names | movie.py:99-101 | The list comprehension over person objects yields their names in list order. |
| Catalog.DirectorField | movie.py:96-99 | The director field is the ", "-join of the director names, whether `director` holds one object or a list. |
| Catalog.GenreField | movie.py:103-106 | The genre field is the ", "-join of the genres, whether `genre` is one string or a list. |
| Catalog.SingleValuesKept | movie.py:96-106 | A single director object gives its name unchanged, and a single genre string is kept as it is. |
| Catalog.Derive | movie.py:96-115 | Each detail field is derived from the linked data. A missing content rating becomes "NA". The date and the two rating numbers are copied through. |
| Catalog.ListingNames | movie.py:82-83 | The catalog key of each listing entry is its image's `alt` text, or "" when there is none. |
| Catalog.NameOf | movie.py:83 | The key of one listing entry: `alt`, or "". `ListingNames` states it entry by entry. |
| Catalog.Seed | movie.py:82-88 | The record pass 1 stores: rank from `data-value`, link `https://www.imdb.com` + href, and the name, with no details yet. `SeededLastWins` states which entry's record is kept. |
| Catalog.Seeded | movie.py:80-88 | The records after pass 1, entry by entry. `SeededKeys`, `SeededLastWins`, `SeededUntouched` and `ListingSize` state its properties, and `AddListing` is proved equal to it. |
| Catalog.Appended | movie.py:80-88 | The key order after pass 1: a name takes its place the first time it is stored. `AddListing` keeps `order` equal to it while keeping every key listed once. |
| Catalog.Detailed | movie.py:90-115 | A record with the derived details merged in and its rank, link and name kept. `DetailAll` and `AddDetails` state which body each record's details come from. |
| Catalog.SeededKeys | movie.py:80-88 | After pass 1 the catalog holds exactly its earlier names plus every listed name. |
| Catalog.SeededLastWins | movie.py:80-88 | The record stored under a listed name is the one built from the last entry with that name, with link `https://www.imdb.com` + href. |
| Catalog.SeededUntouched | movie.py:80-88 | A name the listing does not mention keeps its earlier record through pass 1. |
| Catalog.ListingSize | movie.py:80-88 | Pass 1 on an empty catalog yields one record per distinct listed name. |
| Catalog.CacheStep | movie.py:90-92 | One cached request during pass 2 adds only the requested URL to the cache and keeps every earlier body. |
| Catalog.LinkSeq | movie.py:90-92 | The links pass 2 requests, one per key in iteration order. |
| Catalog.LinkSeqLinks | movie.py:90-92 | Pass 2 requests exactly the links of all records. |
| Catalog.DetailAll | movie.py:90-115 | Pass 2's loop requests every record's link through the cache. Each record gets the details parsed from its cached body. The cache gains exactly the records' links, keeps its old bodies and holds fetched bodies for the new ones. The cache and the log of network requests are what `RequestAll` over the links in iteration order leaves behind. |
| Catalog.MovieCatalog.constructor | movie.py:415 | The catalog starts empty. |
| Catalog.MovieCatalog.AddListing | movie.py:80-88 | Pass 1 stores the listing entries in order, and the catalog's invariants are kept. A name takes its iteration position when it is first stored. |
| Catalog.MovieCatalog.AddDetails | movie.py:90-115 | Pass 2 keeps the keys and their order. Every record gets the details of its cached detail page. The cache grows by the records' links and keeps its old bodies. The request log grows by what `RequestAll` over the links in iteration order sends, which is each link the cache lacked, once. |
| Catalog.BuildCache | movie.py:54-63 | A cached request followed by a pass that grows the cache by some links grows it by both. The network sees exactly the URLs of either that the first cache lacked. |
| Catalog.MovieCatalog.Build | movie.py:65-117 | `build_movie_dict` fetches the chart through the cache and then runs both passes over the listing parsed from it. Afterwards the keys are the earlier plus the listed names, in `Appended` order. Each record is its pass-1 record (`Seeded`) with the details of its link's cached page. The cache grows by the chart URL and the records' links: earlier entries are unchanged and new ones hold the fetched bodies. The network sees exactly those of these URLs that the cache lacked. |
| Reports.FirstComma | movie.py:278-279 | `instr` finds the first comma: the character there is a comma and none comes before it. |
| Reports.FirstCommaAt | movie.py:278-279 | A comma with no comma before it is the one `instr` finds. |
| Reports.Words | movie.py:276-280 | The words the recursive step cuts off a value with a comma appended. `WordsCons` states one step, and `SplitJoin` states the result on a joined list. |
| Reports.Kept | movie.py:281-283 | `WHERE word != ''`, then `ltrim`. `SplitJoin` and `BlankPieceCounted` state what it keeps. |
| Reports.Split | movie.py:275-283 | The names one column value contributes. `SplitJoin`, `SplitEmpty` and `BlankPieceCounted` state its properties. |
| Reports.Tokens | movie.py:274-283 | The names a whole column contributes. `TokensOfJoined` states them for a column of joined lists. |
| Reports.WordsCons | movie.py:276-280 | One recursive step of the split cuts off the text before the first comma and continues after it. |
| Reports.SplitJoin | movie.py:274-283 | Splitting a ", "-joined list of names (non-empty, comma-free, not starting with a space) gives back exactly those names in order. |
| Reports.SplitEmpty | movie.py:274-283 | An empty column value contributes no name. |
| Reports.BlankPieceCounted | movie.py:281-283 | The emptiness test runs before the trim. A piece made only of spaces passes it and is counted under the empty name. |
| Reports.TokensOfJoined | movie.py:274-283 | The names split from a column of joined lists are all the lists' names, every occurrence kept. |
| Reports.Distinct | movie.py:283 | Distinct keys: free of repetitions, with the same members as the input. |
| Reports.Group | movie.py:281-283 | `GROUP BY` with `COUNT(*)`. `GroupCounts` and `GroupTotal` state its properties. |
| Reports.Rows | movie.py:281-283 | One bar per group key, counting that key's occurrences. |
| Reports.Having | movie.py:284 | `HAVING` keeps exactly the bars whose count passes the threshold. |
| Reports.Insert | movie.py:285 | Inserting a bar adds exactly that bar. |
| Reports.InsertDescending | movie.py:285 | Inserting into bars ordered by descending count keeps them ordered. |
| Reports.InsertKeysAndTotal | movie.py:285 | Inserting a bar adds its key and its count to the report. |
| Reports.SortDescending | movie.py:285 | `ORDER BY COUNT(*) DESC` gives a permutation of the bars with counts non-increasing. |
| Reports.SortKeysAndTotal | movie.py:285 | Sorting keeps the keys and the total count. |
| Reports.GroupCounts | movie.py:281-283 | Grouping gives one bar per distinct key, with that key's exact number of occurrences. |
| Reports.ThresholdReport | movie.py:281-285 | Grouping, then the threshold, then the sort: every bar has its exact count above the threshold, every key above it appears once, and the bars are in descending order. |
| Reports.PersonReport | movie.py:274-286 | The director query (and the identical actor query at movie.py:306-317). `PersonReportCorrect` states what it contains. |
| Reports.GenreReport | movie.py:337-347 | The genre query. `GenreReportCorrect` states what it contains. |
| Reports.RatingReport | movie.py:224-229 | The rating query. `RatingReportCorrect` states what it contains. |
| Reports.YearOf | movie.py:250 | `SUBSTR(Date_published, 1, 4)`. `YearsOf` states it per date. |
| Reports.YearReport | movie.py:249-253 | The year query. `YearReportCorrect` states what it contains. |
| Reports.PersonReportCorrect | movie.py:274-286 | The director and actor charts list every split name counted in more than two rows, once each, with its exact count, most frequent first. |
| Reports.PersonReportThreshold | movie.py:284 | A name counted twice is not charted. A name counted three times is charted with count 3. |
| Reports.SortedGroup | movie.py:337-347 | Sorting grouped bars loses none of them and orders them by count. |
| Reports.GenreReportCorrect | movie.py:337-347 | The genre chart lists every split genre once with its exact count (no threshold), most frequent first. |
| Reports.RowsAppend | movie.py:224-229 | One more row raises the bars' total by the number of times the keys list that row's key. |
| Reports.RowsOfNothing | movie.py:224-229 | Counting over no rows gives count zero everywhere. |
| Reports.RowsTotal | movie.py:224-229 | The counts of the bars of all distinct keys add up to the number of rows. |
| Reports.GroupTotal | movie.py:224-229 | The counts of a grouped report add up to the number of rows. |
| Reports.RatingReportCorrect | movie.py:224-229 | The rating chart has one bar per content rating with its exact count, most frequent first, and the counts add up to the number of movies. |
| Reports.RatingReportExample | movie.py:224-229 | Two movies rated PG and three rated R chart as R: 3, then PG: 2. |
| Reports.GroupExample | movie.py:224-229 | Grouping PG, R, PG, R, R gives PG: 2 and R: 3, in order of first appearance. |
| Reports.SortExample | movie.py:228 | The larger count comes first. |
| Reports.DistinctExample | movie.py:227 | The distinct ratings of PG, R, PG, R, R are PG and R. |
| Reports.YearsOf | movie.py:250 | The year of each movie is the first four characters of its publication date. |
| Reports.YearReportCorrect | movie.py:249-253 | The year chart has one bar per year with its exact count, and the counts add up to the number of movies. |
| Reports.DerivedFieldsSplit | movie.py:95-105 | The director, stars and genre fields of a movie split back into exactly the names they were joined from. |
| Reports.DirectorColumn | movie.py:190-199 | The `DirectorName` column `insert_directors` writes: each movie's derived director field. |
| Reports.StarColumn | movie.py:205-214 | The `StarName` column `insert_stars` writes: each movie's derived stars field. |
| Reports.JoinedListsReport | movie.py:274-286 | A person chart over a column of joined name lists counts the names of the lists themselves. |
| Reports.DirectorChartOfCatalog | movie.py:274-286 | When every director name is non-empty, comma-free and does not start with a space, the director chart lists each director with more than two credits across the movies' director lists, with that number of credits. A name listed twice for one movie counts twice, as the query counts it. |
| Reports.ActorChartOfCatalog | movie.py:306-317 | When every star name is non-empty, comma-free and does not start with a space, the actor chart lists each star with more than two credits across the movies' actor lists, with that number of credits. |
| Console.Lower | movie.py:383 | `str.lower()` lowers each ASCII capital and keeps every other character. |
| Console.ChartNamed | movie.py:383-399 | The chart a command names, compared after `lower()`. `ChartKeywords` states which spellings select each chart. |
| Console.Dispatch | movie.py:376-408 | One pass of the loop body. `DispatchPrecedence` states its decision table. |
| Console.LowerMatches | movie.py:383-399 | `s.lower() == w`, for a lower-case word `w`, holds exactly when `s` spells `w` with any letters in upper case. |
| Console.ChartKeywords | movie.py:383-399 | A command names a chart exactly when it spells that chart's keyword in any case. |
| Console.DispatchPrecedence | movie.py:376-408 | One loop pass performs each action exactly when its own test passes and no earlier test did. The order is an exact "help", then an exact movie name (opening its link), then a chart keyword in any case, then an exact "exit". |
| Console.ChartInAnyCase | movie.py:383-399 | Any spelling of a chart keyword that is not a movie's exact name draws that chart. |
| Console.ExitIsCaseSensitive | movie.py:403-408 | "EXIT" is not recognised unless a movie has that name. |
| Console.KeywordInCapitals | movie.py:399-401 | "YEAR" draws the year chart unless a movie has that name. |
| Text.Join | movie.py:99 | `", ".join`. `SplitJoin` states that splitting undoes it. |
| Text.LTrim | movie.py:281 | SQLite's `ltrim(word, ' ')`: a suffix of the word, with only spaces removed and no leading space left. |
| Console.InteractivePrompt | movie.py:367-408 | Each input line read gets the action `Dispatch` gives it. Reading stops right after the first exact "exit", or when input runs out. The session exits exactly when "exit" occurs among the inputs. |

## Left out

- The HTTP GET (`requests.get`) is the parameter `fetch`, a function from URL to body. Network errors are not modelled.
- HTML parsing with BeautifulSoup and `json.loads` are left out. They are the parameters `listing` (page to listing entries) and `parse` (page to `Metadata`).
- `parse` stands for the whole extraction chain: the `<script type="application/ld+json">` element, its contents joined with "", and the JSON decoding.
- The cache file is modelled only as `UrlCache.saved`, a copy of the dictionary written after each miss. The JSON text and the file I/O of `open_cache` and `save_cache` are not modelled. The constructor takes the loaded dictionary as a parameter. So the fallback to an empty dictionary when the file is missing or unreadable (movie.py:32-33) is the caller's choice of argument, not part of the model.
- Keys missing from the linked data crash the program, except `contentRating` and the director's shape, which have fallbacks. The model's `Metadata` always has the keys that crash when missing. An absent `contentRating` is `None`.
- The bare `except` around the director also catches errors other than a list-shaped `director`. The model has only the two shapes, one object or a list.
- `ratingCount` and `ratingValue` are copied through as `real` values. The model does no floating-point arithmetic on them.
- The SQLite schema, `init_db` and the `insert_*` functions are not modelled as a database. The reports take the columns those inserts write: one value per catalog record.
- Reports.SortDescending: among bars with equal counts the queries fix no order. The model picks one (insertion order), and every lemma about the reports states only what holds for any tie order.
- Reports.YearReport: the year query has no `ORDER BY`, so the lemmas state its contents and counts, not its order.
- Plotting with plotly, the `tqdm` progress bars, `print` output, `help.txt`, and `webbrowser.open` are not modelled as I/O. They become the `Action` values `ShowHelp`, `Draw` and `OpenLink` in the console trace.
- Console.InteractivePrompt: in the program, running out of input raises `EOFError`. In the model the session then ends with `exited == false`.
- Console.Lower: only ASCII capitals are lowered. Python lowers all Unicode capitals, which the model does not cover.
- Console.InteractivePrompt: the `break` in the "exit" branch is not a separate step. It leaves the loop exactly when the loop's own condition would.
- `UrlCache.Get`, `AddListing`, `AddDetails`, `Build`, `DetailAll` and the constructors state their effect on object state with `old`, `modifies` or `fresh`. Their properties are therefore also stated as lemmas about the value functions `Request`, `RequestAll` and `Seeded`.
- The module-level script (movie.py:413-421) is only described: it loads the cache, builds the catalog, fills the database and starts the prompt, in that order.
