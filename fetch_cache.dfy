/**
 * The URL-keyed fetch cache of movie.py: a dictionary from URL to response
 * body that is consulted before the network and mirrored to the cache file
 * after every miss. The HTTP GET is the parameter `fetch`.
 */
module FetchCache {
  import opened Collections

  /** The body a request returns together with the cache afterwards. */
  datatype Outcome = Outcome(body: string, entries: map<string, string>)

  /** One cached request on the cache `entries`, as a value. */
  function Request(entries: map<string, string>, url: string, fetch: string -> string): Outcome
  {
    if url in entries then Outcome(entries[url], entries)
    else Outcome(fetch(url), entries[url := fetch(url)])
  }

  /**
   * Once a URL has been requested, asking again hits the cache: the same body
   * comes back and the cache stays as it is, whatever the network would say now.
   */
  lemma RequestIdempotent(entries: map<string, string>, url: string, fetch: string -> string, later: string -> string)
    ensures var first := Request(entries, url, fetch);
            Request(first.entries, url, later) == first
  {
  }

  /** A sequence of requests, in order: the bodies returned, the final cache, and the URLs sent to the network. */
  datatype Series = Series(bodies: seq<string>, entries: map<string, string>, fetched: seq<string>)

  function RequestAll(entries: map<string, string>, urls: seq<string>, fetch: string -> string): Series
    decreases |urls|
  {
    if urls == [] then Series([], entries, [])
    else
      var first := Request(entries, urls[0], fetch);
      var rest := RequestAll(first.entries, urls[1..], fetch);
      Series([first.body] + rest.bodies, rest.entries,
             (if urls[0] in entries then [] else [urls[0]]) + rest.fetched)
  }

  /** One more request at the end of a sequence continues from the cache the sequence left behind. */
  lemma {:induction false} RequestAllSnoc(entries: map<string, string>, urls: seq<string>, url: string,
                                          fetch: string -> string)
    ensures var r := RequestAll(entries, urls, fetch);
            var last := Request(r.entries, url, fetch);
            RequestAll(entries, urls + [url], fetch)
              == Series(r.bodies + [last.body], last.entries, r.fetched + (if url in r.entries then [] else [url]))
    decreases |urls|
  {
    if urls == [] {
      assert urls + [url] == [url];
    } else {
      var first := Request(entries, urls[0], fetch);
      assert (urls + [url])[0] == urls[0];
      assert (urls + [url])[1..] == urls[1..] + [url];
      RequestAllSnoc(first.entries, urls[1..], url, fetch);
    }
  }

  /**
   * Over any sequence of requests each URL reaches the network at most once,
   * and exactly the URLs missing from the starting cache do.
   */
  lemma {:induction false} RequestAllFetchesOnce(entries: map<string, string>, urls: seq<string>, fetch: string -> string)
    ensures var r := RequestAll(entries, urls, fetch);
            && Unique(r.fetched)
            && (forall u :: u in r.fetched <==> u in urls && u !in entries)
    decreases |urls|
  {
    if urls != [] {
      var first := Request(entries, urls[0], fetch);
      RequestAllFetchesOnce(first.entries, urls[1..], fetch);
      var rest := RequestAll(first.entries, urls[1..], fetch);
      assert forall u :: u in urls <==> u == urls[0] || u in urls[1..];
      if urls[0] !in entries {
        assert urls[0] !in rest.fetched;
      }
    }
  }

  /**
   * Each request returns what the final cache holds for its URL; the final
   * cache holds the starting entries unchanged plus the fetched body of every
   * other requested URL.
   */
  lemma {:induction false} RequestAllCache(entries: map<string, string>, urls: seq<string>, fetch: string -> string)
    ensures var r := RequestAll(entries, urls, fetch);
            && |r.bodies| == |urls|
            && (forall i :: 0 <= i < |urls| ==> urls[i] in r.entries && r.bodies[i] == r.entries[urls[i]])
            && (forall u :: u in r.entries <==> u in entries || u in urls)
            && (forall u :: u in entries ==> r.entries[u] == entries[u])
            && (forall u :: u in r.entries && u !in entries ==> r.entries[u] == fetch(u))
    decreases |urls|
  {
    if urls != [] {
      var first := Request(entries, urls[0], fetch);
      RequestAllCache(first.entries, urls[1..], fetch);
      assert forall i :: 1 <= i < |urls| ==> urls[i] == urls[1..][i - 1];
      assert forall u :: u in urls <==> u == urls[0] || u in urls[1..];
    }
  }

  /**
   * CACHE_DICT together with what lies outside the process: the cache file
   * (`saved`) and the log of requests sent to the network (`requests`).
   */
  class UrlCache {
    var entries: map<string, string>
    var saved: map<string, string>
    var requests: seq<string>

    /** The file mirrors the dictionary, and every URL was fetched at most once and is cached. */
    ghost predicate Valid()
      reads this
    {
      && saved == entries
      && (forall u :: u in requests ==> u in entries)
      && Unique(requests)
    }

    /** `open_cache()`: the dictionary loaded from the cache file. */
    constructor (loaded: map<string, string>)
      ensures Valid()
      ensures entries == loaded && saved == loaded && requests == []
    {
      entries := loaded;
      saved := loaded;
      requests := [];
    }

    /** `make_url_request_using_cache(url, cache)` */
    method Get(url: string, fetch: string -> string) returns (body: string)
      requires Valid()
      modifies this
      ensures Valid()
      ensures Outcome(body, entries) == Request(old(entries), url, fetch)
      ensures url in old(entries) ==> body == old(entries)[url] && entries == old(entries) && requests == old(requests)
      ensures url !in old(entries) ==> body == fetch(url) && entries == old(entries)[url := body] && requests == old(requests) + [url]
    {
      if url in entries {
        body := entries[url];
      } else {
        requests := requests + [url];
        body := fetch(url);
        entries := entries[url := body];
        saved := entries;
      }
      if url !in old(entries) {
        UniqueAppend(old(requests), url);
      }
    }
  }
}
