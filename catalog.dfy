/**
 * `build_movie_dict` of movie.py: the in-memory catalog `top_movies`, filled
 * from the top-chart listing (pass 1) and then from each movie's detail page
 * (pass 2). Parsing HTML and decoding JSON are the parameters `listing` and
 * `parse`; the network is the parameter `fetch`, reached through the cache.
 */
module Catalog {
  import opened Wrappers
  import opened Collections
  import opened Text
  import FetchCache

  const Site := "https://www.imdb.com"
  const TopChartUrl := "https://www.imdb.com/chart/top?ref_=nv_mv_250"
  /** The separator of every multi-valued field. */
  const Separator := ", "
  /** The content rating of a movie whose metadata has none. */
  const NoContentRating := "NA"

  /** One `posterColumn` of the listing: the link's `href`, the image's `alt` (if any), the span's `data-value`. */
  datatype ListingEntry = ListingEntry(href: string, alt: Option<string>, dataValue: string)

  /** A person object of the linked-data block; only its `name` is read. */
  datatype Person = Person(name: string)

  /** The `director` key: one object, or a list of them. */
  datatype Directors = OneDirector(director: Person) | ManyDirectors(directors: seq<Person>)

  /** The `genre` key: one string, or a list of them. */
  datatype Genre = OneGenre(genre: string) | ManyGenres(genres: seq<string>)

  /**
   * The decoded linked-data block of a detail page, reduced to the keys the
   * program reads. The two rating numbers are copied through untouched.
   */
  datatype Metadata = Metadata(
    director: Directors,
    actor: seq<Person>,
    genre: Genre,
    datePublished: string,
    ratingCount: real,
    ratingValue: real,
    contentRating: Option<string>)

  /** The fields pass 2 adds to a record. */
  datatype Details = Details(
    director: string,
    stars: string,
    genre: string,
    datePublished: string,
    ratingCount: real,
    ratingValue: real,
    contentRating: string)

  /** A record of `top_movies`: what pass 1 stores, and the details once pass 2 has run. */
  datatype Movie = Movie(index: string, fullLink: string, movieName: string, details: Option<Details>)

  /** The names of a list of person objects, in list order. */
  function Names(people: seq<Person>): (r: seq<string>)
    ensures |r| == |people| && forall i :: 0 <= i < |people| ==> r[i] == people[i].name
  {
    if people == [] then [] else [people[0].name] + Names(people[1..])
  }

  /** The names a `director` key holds, in order. */
  function DirectorNames(d: Directors): seq<string>
  {
    match d
    case OneDirector(p) => [p.name]
    case ManyDirectors(ps) => Names(ps)
  }

  /** The genres a `genre` key holds, in order. */
  function GenreNames(g: Genre): seq<string>
  {
    match g
    case OneGenre(s) => [s]
    case ManyGenres(gs) => gs
  }

  /** The `director` field: the single director's name, or the directors' names joined by ", ". */
  function DirectorField(d: Directors): (r: string)
    ensures r == Join(DirectorNames(d), Separator)
  {
    match d
    case OneDirector(p) => p.name
    case ManyDirectors(ps) => Join(Names(ps), Separator)
  }

  /** The `genre` field: a string genre unchanged, a list of genres joined by ", ". */
  function GenreField(g: Genre): (r: string)
    ensures r == Join(GenreNames(g), Separator)
  {
    match g
    case OneGenre(s) => s
    case ManyGenres(gs) => Join(gs, Separator)
  }

  /** The record fields derived from a page's metadata. */
  function Derive(meta: Metadata): (r: Details)
    ensures r.director == Join(DirectorNames(meta.director), Separator)
    ensures r.stars == Join(Names(meta.actor), Separator)
    ensures r.genre == Join(GenreNames(meta.genre), Separator)
    ensures r.contentRating == (if meta.contentRating.Some? then meta.contentRating.value else NoContentRating)
    ensures r.datePublished == meta.datePublished
    ensures r.ratingCount == meta.ratingCount && r.ratingValue == meta.ratingValue
  {
    Details(
      DirectorField(meta.director),
      Join(Names(meta.actor), Separator),
      GenreField(meta.genre),
      meta.datePublished,
      meta.ratingCount,
      meta.ratingValue,
      meta.contentRating.GetOr(NoContentRating))
  }

  /** A single director yields exactly that name; a genre string is kept as it is. */
  lemma SingleValuesKept(p: Person, g: string)
    ensures DirectorField(OneDirector(p)) == p.name
    ensures GenreField(OneGenre(g)) == g
  {
  }

  /** The catalog key of a listing entry: the image's `alt`, or "" without one. */
  function NameOf(e: ListingEntry): string
  {
    e.alt.GetOr("")
  }

  /** The record pass 1 stores for a listing entry. */
  function Seed(e: ListingEntry): Movie
  {
    Movie(e.dataValue, Site + e.href, NameOf(e), None)
  }

  /** The catalog keys of a listing, entry by entry. */
  function ListingNames(es: seq<ListingEntry>): (r: seq<string>)
    ensures |r| == |es| && forall i :: 0 <= i < |es| ==> r[i] == NameOf(es[i])
  {
    if es == [] then [] else [NameOf(es[0])] + ListingNames(es[1..])
  }

  /** The records after pass 1 has stored the entries `es`, in order, into `m`. */
  function Seeded(m: map<string, Movie>, es: seq<ListingEntry>): map<string, Movie>
  {
    if es == [] then m
    else Seeded(m, es[..|es| - 1])[NameOf(es[|es| - 1]) := Seed(es[|es| - 1])]
  }

  /** The iteration order of the dictionary after pass 1: a name takes its place when it is first stored. */
  function Appended(order: seq<string>, es: seq<ListingEntry>): seq<string>
  {
    if es == [] then order
    else
      var o := Appended(order, es[..|es| - 1]);
      if NameOf(es[|es| - 1]) in o then o else o + [NameOf(es[|es| - 1])]
  }

  /** Pass 1 stores a record under every listed name and keeps every record it had. */
  lemma {:induction false} SeededKeys(m: map<string, Movie>, es: seq<ListingEntry>)
    ensures forall n :: n in Seeded(m, es) <==> n in m || n in ListingNames(es)
  {
    if es != [] {
      var init := es[..|es| - 1];
      SeededKeys(m, init);
      assert ListingNames(es) == ListingNames(init) + [NameOf(es[|es| - 1])];
    }
  }

  /** A record of pass 1 is that of the last entry with its name: a later duplicate replaces an earlier one. */
  lemma {:induction false} SeededLastWins(m: map<string, Movie>, es: seq<ListingEntry>, k: nat)
    requires k < |es|
    requires forall j :: k < j < |es| ==> NameOf(es[j]) != NameOf(es[k])
    ensures NameOf(es[k]) in Seeded(m, es) && Seeded(m, es)[NameOf(es[k])] == Seed(es[k])
  {
    if k < |es| - 1 {
      SeededLastWins(m, es[..|es| - 1], k);
    }
  }

  /** A name the listing does not mention keeps its record through pass 1. */
  lemma {:induction false} SeededUntouched(m: map<string, Movie>, es: seq<ListingEntry>, n: string)
    requires n in m && n !in ListingNames(es)
    ensures n in Seeded(m, es) && Seeded(m, es)[n] == m[n]
  {
    if es != [] {
      var init := es[..|es| - 1];
      assert ListingNames(es)[|es| - 1] == NameOf(es[|es| - 1]);
      assert ListingNames(init) == ListingNames(es)[..|es| - 1];
      SeededUntouched(m, init, n);
    }
  }

  /** Starting from an empty catalog, pass 1 holds one record per distinct listed name. */
  lemma ListingSize(es: seq<ListingEntry>)
    ensures |Seeded(map[], es)| == |set n | n in ListingNames(es)|
  {
    SeededKeys(map[], es);
    assert Seeded(map[], es).Keys == set n | n in ListingNames(es);
  }

  /** The record of `m` once the details derived from `meta` are merged in. */
  function Detailed(m: Movie, meta: Metadata): Movie
  {
    m.(details := Some(Derive(meta)))
  }

  /** The links of all records. */
  function Links(records: map<string, Movie>): set<string>
  {
    set n | n in records :: records[n].fullLink
  }

  /** The cache `entries` holds the entries of `cached` unchanged plus a fetched body for each URL of `visited`. */
  ghost predicate CacheGrown(cached: map<string, string>, entries: map<string, string>, visited: set<string>, fetch: string -> string)
  {
    && entries.Keys == cached.Keys + visited
    && (forall u :: u in cached ==> entries[u] == cached[u])
    && (forall u :: u in entries && u !in cached ==> entries[u] == fetch(u))
  }

  /**
   * The records of the first `i` names carry the details of their cached
   * pages; the records of the other names are as in `before`.
   */
  ghost predicate RecordsDone(before: map<string, Movie>, records: map<string, Movie>, entries: map<string, string>,
                              names: seq<string>, i: nat, parse: string -> Metadata)
    requires i <= |names|
  {
    && records.Keys == before.Keys
    && (forall j :: i <= j < |names| && names[j] in records ==> records[names[j]] == before[names[j]])
    && (forall j :: 0 <= j < i && names[j] in records ==>
          && before[names[j]].fullLink in entries
          && records[names[j]] == Detailed(before[names[j]], parse(entries[before[names[j]].fullLink])))
  }

  /** Growing a cache by `v1` and then by `v2` grows it by both. */
  lemma CacheGrownTrans(c0: map<string, string>, c1: map<string, string>, c2: map<string, string>,
                        v1: set<string>, v2: set<string>, fetch: string -> string)
    requires CacheGrown(c0, c1, v1, fetch) && CacheGrown(c1, c2, v2, fetch)
    ensures CacheGrown(c0, c2, v1 + v2, fetch)
  {
  }

  /**
   * A cached request for `url` followed by a pass that grows the cache by
   * `links` grows it by both, and the network sees exactly the URLs of
   * either that the first cache lacked.
   */
  lemma BuildCache(e0: map<string, string>, q0: seq<string>, e1: map<string, string>, q1: seq<string>,
                   e2: map<string, string>, q2: seq<string>, url: string, links: set<string>, fetch: string -> string)
    requires e1 == FetchCache.Request(e0, url, fetch).entries
    requires url in e0 ==> q1 == q0
    requires url !in e0 ==> q1 == q0 + [url]
    requires CacheGrown(e1, e2, links, fetch)
    requires forall u :: u in q2 <==> u in q1 || (u in links && u !in e1)
    ensures CacheGrown(e0, e2, {url} + links, fetch)
    ensures forall u :: u in q2 <==> u in q0 || (u !in e0 && (u == url || u in links))
  {
    assert CacheGrown(e0, e1, {url}, fetch);
    CacheGrownTrans(e0, e1, e2, {url}, links, fetch);
  }

  /** A cached request on a grown cache leaves it grown by the requested URL, and keeps every earlier body. */
  lemma CacheStep(cached: map<string, string>, entries: map<string, string>, entries': map<string, string>,
                  visited: set<string>, url: string, body: string, fetch: string -> string)
    requires CacheGrown(cached, entries, visited, fetch)
    requires FetchCache.Outcome(body, entries') == FetchCache.Request(entries, url, fetch)
    ensures CacheGrown(cached, entries', visited + {url}, fetch)
    ensures Extends(entries, entries') && url in entries' && entries'[url] == body
  {
  }

  /** The cache `entries'` holds every entry of `entries` unchanged. */
  ghost predicate Extends(entries: map<string, string>, entries': map<string, string>)
  {
    forall u :: u in entries ==> u in entries' && entries'[u] == entries[u]
  }

  /** The links of the first `i` names are in `visited`, and `visited` holds only links of records. */
  ghost predicate Visited(before: map<string, Movie>, names: seq<string>, i: nat, visited: set<string>)
    requires i <= |names|
  {
    && (forall j :: 0 <= j < i && names[j] in before ==> before[names[j]].fullLink in visited)
    && visited <= Links(before)
  }

  lemma VisitedStep(before: map<string, Movie>, names: seq<string>, i: nat, visited: set<string>)
    requires i < |names| && names[i] in before
    requires Visited(before, names, i, visited)
    ensures Visited(before, names, i + 1, visited + {before[names[i]].fullLink})
  {
  }

  /** One step of pass 2 extends the finished part by one name; a grown cache keeps the earlier bodies. */
  lemma RecordsStep(before: map<string, Movie>, records: map<string, Movie>, entries: map<string, string>,
                    entries': map<string, string>, names: seq<string>, i: nat, body: string,
                    parse: string -> Metadata)
    requires i < |names| && Unique(names)
    requires RecordsDone(before, records, entries, names, i, parse)
    requires names[i] in before
    requires Extends(entries, entries') && before[names[i]].fullLink in entries'
    requires entries'[before[names[i]].fullLink] == body
    ensures RecordsDone(before, records[names[i] := Detailed(before[names[i]], parse(body))], entries', names, i + 1, parse)
  {
  }

  /** The links of the records of `names`, in the order of `names`. */
  function LinkSeq(records: map<string, Movie>, names: seq<string>): (r: seq<string>)
    requires forall j :: 0 <= j < |names| ==> names[j] in records
    ensures |r| == |names| && forall j :: 0 <= j < |names| ==> r[j] == records[names[j]].fullLink
  {
    if names == [] then [] else [records[names[0]].fullLink] + LinkSeq(records, names[1..])
  }

  /** Listing the links of all names, each record's link appears. */
  lemma LinkSeqLinks(records: map<string, Movie>, names: seq<string>)
    requires forall n :: n in records <==> n in names
    ensures forall u :: u in LinkSeq(records, names) <==> u in Links(records)
  {
    var l := LinkSeq(records, names);
    forall u | u in Links(records) ensures u in l {
      var n :| n in records && records[n].fullLink == u;
      var j :| 0 <= j < |names| && names[j] == n;
      assert l[j] == u;
    }
  }

  lemma LinkSeqStep(records: map<string, Movie>, names: seq<string>, i: nat)
    requires i < |names| && forall j :: 0 <= j < |names| ==> names[j] in records
    ensures LinkSeq(records, names[..i + 1]) == LinkSeq(records, names[..i]) + [records[names[i]].fullLink]
  {
    var a, b := LinkSeq(records, names[..i + 1]), LinkSeq(records, names[..i]) + [records[names[i]].fullLink];
    assert |a| == |b|;
    forall j | 0 <= j < |a| ensures a[j] == b[j] {
      assert names[..i + 1][j] == names[j];
    }
  }

  /**
   * The cache and its request log are what the requests `urls`, made in
   * order on the cache `cached`, leave behind, the log continuing `logged`.
   */
  ghost predicate Replayed(cached: map<string, string>, logged: seq<string>, entries: map<string, string>,
                           requests: seq<string>, urls: seq<string>, fetch: string -> string)
  {
    var r := FetchCache.RequestAll(cached, urls, fetch);
    entries == r.entries && requests == logged + r.fetched
  }

  /** A cached request extends the replayed sequence by its URL. */
  lemma ReplayStep(cached: map<string, string>, logged: seq<string>, entries: map<string, string>,
                   requests: seq<string>, urls: seq<string>, url: string, body: string,
                   entries': map<string, string>, requests': seq<string>, fetch: string -> string)
    requires Replayed(cached, logged, entries, requests, urls, fetch)
    requires FetchCache.Outcome(body, entries') == FetchCache.Request(entries, url, fetch)
    requires requests' == if url in entries then requests else requests + [url]
    ensures Replayed(cached, logged, entries', requests', urls + [url], fetch)
  {
    FetchCache.RequestAllSnoc(cached, urls, url, fetch);
  }

  /**
   * Pass 2 after the first `i` names: the finished part as `RecordsDone`
   * says, the cache grown by the `visited` links, and cache and request log
   * as replaying those names' links in order leaves them.
   */
  ghost predicate Progress(before: map<string, Movie>, names: seq<string>, i: nat, visited: set<string>,
                           updated: map<string, Movie>, cached: map<string, string>, logged: seq<string>,
                           entries: map<string, string>, requests: seq<string>,
                           fetch: string -> string, parse: string -> Metadata)
    requires i <= |names| && forall j :: 0 <= j < |names| ==> names[j] in before
  {
    && Visited(before, names, i, visited)
    && CacheGrown(cached, entries, visited, fetch)
    && RecordsDone(before, updated, entries, names, i, parse)
    && Replayed(cached, logged, entries, requests, LinkSeq(before, names[..i]), fetch)
  }

  /** Before pass 2 nothing is done yet. */
  lemma ProgressStart(before: map<string, Movie>, names: seq<string>, cached: map<string, string>,
                      logged: seq<string>, fetch: string -> string, parse: string -> Metadata)
    requires forall j :: 0 <= j < |names| ==> names[j] in before
    ensures Progress(before, names, 0, {}, before, cached, logged, cached, logged, fetch, parse)
  {
    assert names[..0] == [];
  }

  /** One iteration of pass 2: request the next name's link and merge in its details. */
  lemma ProgressStep(before: map<string, Movie>, names: seq<string>, i: nat, visited: set<string>,
                     updated: map<string, Movie>, cached: map<string, string>, logged: seq<string>,
                     entries: map<string, string>, requests: seq<string>, body: string,
                     entries': map<string, string>, requests': seq<string>,
                     fetch: string -> string, parse: string -> Metadata)
    requires i < |names| && Unique(names) && forall j :: 0 <= j < |names| ==> names[j] in before
    requires Progress(before, names, i, visited, updated, cached, logged, entries, requests, fetch, parse)
    requires FetchCache.Outcome(body, entries') == FetchCache.Request(entries, before[names[i]].fullLink, fetch)
    requires requests' == if before[names[i]].fullLink in entries then requests else requests + [before[names[i]].fullLink]
    ensures Progress(before, names, i + 1, visited + {before[names[i]].fullLink},
                     updated[names[i] := Detailed(before[names[i]], parse(body))],
                     cached, logged, entries', requests', fetch, parse)
  {
    var link := before[names[i]].fullLink;
    ReplayStep(cached, logged, entries, requests, LinkSeq(before, names[..i]), link, body, entries', requests', fetch);
    LinkSeqStep(before, names, i);
    CacheStep(cached, entries, entries', visited, link, body, fetch);
    RecordsStep(before, updated, entries, entries', names, i, body, parse);
    VisitedStep(before, names, i, visited);
  }

  /** Pass 2 after every name: each record detailed, the cache grown by all links, as replaying them leaves it. */
  lemma ProgressDone(before: map<string, Movie>, names: seq<string>, visited: set<string>,
                     updated: map<string, Movie>, cached: map<string, string>, logged: seq<string>,
                     entries: map<string, string>, requests: seq<string>,
                     fetch: string -> string, parse: string -> Metadata)
    requires forall n :: n in before <==> n in names
    requires forall j :: 0 <= j < |names| ==> names[j] in before
    requires Progress(before, names, |names|, visited, updated, cached, logged, entries, requests, fetch, parse)
    ensures CacheGrown(cached, entries, Links(before), fetch)
    ensures updated.Keys == before.Keys
    ensures forall n :: n in before ==>
              && before[n].fullLink in entries
              && updated[n] == Detailed(before[n], parse(entries[before[n].fullLink]))
    ensures var r := FetchCache.RequestAll(cached, LinkSeq(before, names), fetch);
            entries == r.entries && requests == logged + r.fetched
  {
    AllVisited(before, names, visited);
    AllDetailed(before, names, updated, entries, parse);
    assert names[..|names|] == names;
  }

  lemma AllVisited(before: map<string, Movie>, names: seq<string>, visited: set<string>)
    requires forall n :: n in before <==> n in names
    requires Visited(before, names, |names|, visited)
    ensures visited == Links(before)
  {
    forall n | n in before ensures before[n].fullLink in visited {
      var j :| 0 <= j < |names| && names[j] == n;
    }
  }

  lemma AllDetailed(before: map<string, Movie>, names: seq<string>, updated: map<string, Movie>,
                    entries: map<string, string>, parse: string -> Metadata)
    requires forall n :: n in before <==> n in names
    requires RecordsDone(before, updated, entries, names, |names|, parse)
    ensures forall n :: n in before ==>
              && before[n].fullLink in entries
              && updated[n] == Detailed(before[n], parse(entries[before[n].fullLink]))
  {
    forall n | n in before
      ensures before[n].fullLink in entries && n in updated
      ensures updated[n] == Detailed(before[n], parse(entries[before[n].fullLink]))
    {
      var j :| 0 <= j < |names| && names[j] == n;
    }
  }

  /**
   * The loop of pass 2: for each name in turn, request its record's link
   * through the cache and merge in the details decoded from the body.
   */
  method DetailAll(cache: FetchCache.UrlCache, before: map<string, Movie>, names: seq<string>,
                   fetch: string -> string, parse: string -> Metadata)
    returns (updated: map<string, Movie>)
    requires cache.Valid()
    requires (forall n :: n in before <==> n in names) && Unique(names)
    modifies cache
    ensures cache.Valid()
    ensures CacheGrown(old(cache.entries), cache.entries, Links(before), fetch)
    ensures updated.Keys == before.Keys
    ensures forall n :: n in before ==>
              && before[n].fullLink in cache.entries
              && updated[n] == Detailed(before[n], parse(cache.entries[before[n].fullLink]))
    ensures var r := FetchCache.RequestAll(old(cache.entries), LinkSeq(before, names), fetch);
            cache.entries == r.entries && cache.requests == old(cache.requests) + r.fetched
  {
    ghost var cached, logged := cache.entries, cache.requests;
    ghost var visited: set<string> := {};
    ProgressStart(before, names, cached, logged, fetch, parse);
    updated := before;
    var i := 0;
    while i < |names|
      invariant 0 <= i <= |names|
      invariant cache.Valid()
      invariant Progress(before, names, i, visited, updated, cached, logged, cache.entries, cache.requests, fetch, parse)
    {
      var m := before[names[i]];
      ghost var entries, requests := cache.entries, cache.requests;
      var body := cache.Get(m.fullLink, fetch);
      ProgressStep(before, names, i, visited, updated, cached, logged, entries, requests, body,
                   cache.entries, cache.requests, fetch, parse);
      updated := updated[names[i] := Detailed(m, parse(body))];
      visited := visited + {m.fullLink};
      i := i + 1;
    }
    ProgressDone(before, names, visited, updated, cached, logged, cache.entries, cache.requests, fetch, parse);
  }

  /** The global `top_movies`: its records, and its keys in iteration (insertion) order. */
  class MovieCatalog {
    var records: map<string, Movie>
    var order: seq<string>

    /** Each record sits under its own name, and `order` lists every key exactly once. */
    ghost predicate Valid()
      reads this
    {
      && (forall n :: n in records ==> records[n].movieName == n)
      && (forall n :: n in records <==> n in order)
      && Unique(order)
    }

    /** `top_movies = {}` */
    constructor ()
      ensures Valid() && records == map[] && order == []
    {
      records := map[];
      order := [];
    }

    /** Pass 1 (movie.py:80-88): a record per listing entry, a later duplicate name replacing the earlier record. */
    method AddListing(entries: seq<ListingEntry>)
      requires Valid()
      modifies this
      ensures Valid()
      ensures records == Seeded(old(records), entries)
      ensures order == Appended(old(order), entries)
    {
      var i := 0;
      while i < |entries|
        invariant 0 <= i <= |entries|
        invariant Valid()
        invariant records == Seeded(old(records), entries[..i])
        invariant order == Appended(old(order), entries[..i])
      {
        var e := entries[i];
        var name := NameOf(e);
        if name !in records {
          UniqueAppend(order, name);
          order := order + [name];
        }
        records := records[name := Seed(e)];
        assert entries[..i + 1][..i] == entries[..i];
        i := i + 1;
      }
      assert entries[..i] == entries;
    }

    /**
     * Pass 2 (movie.py:90-115): every record, in iteration order, gets the
     * details derived from its detail page, fetched through the cache.
     */
    method AddDetails(cache: FetchCache.UrlCache, fetch: string -> string, parse: string -> Metadata)
      requires Valid() && cache.Valid()
      modifies this, cache
      ensures Valid() && cache.Valid()
      ensures order == old(order) && records.Keys == old(records).Keys
      ensures forall n :: n in records ==>
                && old(records)[n].fullLink in cache.entries
                && records[n] == Detailed(old(records)[n], parse(cache.entries[old(records)[n].fullLink]))
      ensures CacheGrown(old(cache.entries), cache.entries, Links(old(records)), fetch)
      ensures cache.requests == old(cache.requests)
                + FetchCache.RequestAll(old(cache.entries), LinkSeq(old(records), old(order)), fetch).fetched
      ensures forall u :: u in cache.requests <==>
                u in old(cache.requests) || (u in Links(old(records)) && u !in old(cache.entries))
    {
      ghost var links := LinkSeq(records, order);
      records := DetailAll(cache, records, order, fetch, parse);
      FetchCache.RequestAllFetchesOnce(old(cache.entries), links, fetch);
      LinkSeqLinks(old(records), old(order));
    }

    /**
     * `build_movie_dict()`: fetch the top chart through the cache, store its
     * entries (pass 1), then add every record's details (pass 2).
     */
    method Build(cache: FetchCache.UrlCache, fetch: string -> string,
                 listing: string -> seq<ListingEntry>, parse: string -> Metadata)
      requires Valid() && cache.Valid()
      modifies this, cache
      ensures Valid() && cache.Valid()
      ensures TopChartUrl in cache.entries
      ensures cache.entries[TopChartUrl] == FetchCache.Request(old(cache.entries), TopChartUrl, fetch).body
      ensures forall u :: u in old(cache.entries) ==> u in cache.entries && cache.entries[u] == old(cache.entries)[u]
      ensures var listed := listing(FetchCache.Request(old(cache.entries), TopChartUrl, fetch).body);
              && (forall n :: n in records <==> n in old(records) || n in ListingNames(listed))
              && order == Appended(old(order), listed)
              && forall n :: n in records ==>
                   var seeded := Seeded(old(records), listed);
                   && n in seeded
                   && records[n].movieName == n
                   && seeded[n].fullLink in cache.entries
                   && records[n] == Detailed(seeded[n], parse(cache.entries[seeded[n].fullLink]))
      ensures var listed := listing(FetchCache.Request(old(cache.entries), TopChartUrl, fetch).body);
              CacheGrown(old(cache.entries), cache.entries, {TopChartUrl} + Links(Seeded(old(records), listed)), fetch)
      ensures var listed := listing(FetchCache.Request(old(cache.entries), TopChartUrl, fetch).body);
              forall u :: u in cache.requests <==>
                u in old(cache.requests)
                || (u !in old(cache.entries) && (u == TopChartUrl || u in Links(Seeded(old(records), listed))))
    {
      ghost var e0, q0 := cache.entries, cache.requests;
      var page := cache.Get(TopChartUrl, fetch);
      ghost var e1, q1 := cache.entries, cache.requests;
      AddListing(listing(page));
      SeededKeys(old(records), listing(page));
      ghost var seeded := records;
      AddDetails(cache, fetch, parse);
      BuildCache(e0, q0, e1, q1, cache.entries, cache.requests, TopChartUrl, Links(seeded), fetch);
    }
  }
}
