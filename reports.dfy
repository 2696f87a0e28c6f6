/**
 * The aggregation behind the five charts of movie.py, stated over the
 * column values the SQL queries read rather than over a database.
 *
 * The director, actor and genre queries split a ", "-joined column with a
 * recursive common table expression: starting from the row ('', value || ','),
 * each step takes the text before the first comma as the next word
 * (`substr(str, 0, instr(str, ','))`, where `instr` counts from 1) and the
 * text after it as the rest, until the rest is empty. Words that are empty
 * are dropped, the others lose their leading spaces, and equal names are
 * counted together.
 */
module Reports {
  import opened Collections
  import opened Text
  import Catalog

  /** One bar of a chart: a group's key and how many rows fell into it. */
  datatype Bar = Bar(key: string, count: nat)

  /** Position of the first ',' in `s`. */
  function FirstComma(s: string): (i: nat)
    requires ',' in s
    ensures i < |s| && s[i] == ',' && ',' !in s[..i]
  {
    if s[0] == ',' then 0
    else
      var k := FirstComma(s[1..]);
      assert s[..k + 1] == [s[0]] + s[1..][..k];
      k + 1
  }

  /** The words the recursive step cuts off `str`, a string that is empty or ends with ','. */
  function Words(str: string): seq<string>
    requires str == [] || str[|str| - 1] == ','
    decreases |str|
  {
    if str == [] then []
    else
      var i := FirstComma(str);
      [str[..i]] + Words(str[i + 1..])
  }

  /** `WHERE word != ''` followed by `ltrim(word, ' ')`. */
  function Kept(words: seq<string>): seq<string>
  {
    if words == [] then []
    else (if words[0] != "" then [LTrim(words[0])] else []) + Kept(words[1..])
  }

  /** The names one column value contributes to a split-and-count query. */
  function Split(value: string): seq<string>
  {
    Kept([""] + Words(value + ","))
  }

  /** The names a whole column contributes, value after value. */
  function Tokens(values: seq<string>): seq<string>
  {
    if values == [] then [] else Split(values[0]) + Tokens(values[1..])
  }

  /** `sep.join` applied to each list of names. */
  function JoinEach(lists: seq<seq<string>>, sep: string): (r: seq<string>)
    ensures |r| == |lists| && forall i :: 0 <= i < |lists| ==> r[i] == Join(lists[i], sep)
  {
    if lists == [] then [] else [Join(lists[0], sep)] + JoinEach(lists[1..], sep)
  }

  /** All lists, one after the other. */
  function Flatten(lists: seq<seq<string>>): seq<string>
  {
    if lists == [] then [] else lists[0] + Flatten(lists[1..])
  }

  /** A name the split gives back unchanged: not empty, no comma, no leading space. */
  predicate PlainName(n: string)
  {
    n != [] && ',' !in n && n[0] != ' '
  }

  /** The keys in order of first appearance, each once. */
  function Distinct(s: seq<string>): (d: seq<string>)
    ensures Unique(d)
    ensures forall x :: x in d <==> x in s
  {
    if s == [] then []
    else
      var d := Distinct(s[..|s| - 1]);
      assert forall x :: x in s <==> x in s[..|s| - 1] || x == s[|s| - 1];
      if s[|s| - 1] in d then d else d + [s[|s| - 1]]
  }

  /** A bar per key of `keys`, counting its occurrences in `s`. */
  function Rows(keys: seq<string>, s: seq<string>): (r: seq<Bar>)
    ensures Labels(r) == keys
    ensures |r| == |keys| && forall i :: 0 <= i < |keys| ==> r[i] == Bar(keys[i], multiset(s)[keys[i]])
  {
    if keys == [] then [] else [Bar(keys[0], multiset(s)[keys[0]])] + Rows(keys[1..], s)
  }

  /** `GROUP BY key` with `COUNT(*)`, groups in order of first appearance. */
  function Group(s: seq<string>): seq<Bar>
  {
    Rows(Distinct(s), s)
  }

  /** The keys of the bars, in order. */
  function Labels(r: seq<Bar>): seq<string>
  {
    if r == [] then [] else [r[0].key] + Labels(r[1..])
  }

  /** The total of all counts. */
  function Total(r: seq<Bar>): nat
  {
    if r == [] then 0 else r[0].count + Total(r[1..])
  }

  /** `HAVING COUNT(*) > min`. */
  function Having(r: seq<Bar>, min: nat): (h: seq<Bar>)
    ensures forall b :: b in h <==> b in r && b.count > min
    ensures multiset(Labels(h)) <= multiset(Labels(r))
  {
    if r == [] then []
    else if r[0].count > min then [r[0]] + Having(r[1..], min)
    else Having(r[1..], min)
  }

  /** Bars ordered by count, largest first. */
  ghost predicate Descending(r: seq<Bar>)
  {
    forall i, j :: 0 <= i < j < |r| ==> r[i].count >= r[j].count
  }

  /** Insert a bar into bars ordered by count, largest first: before the first bar that does not outnumber it. */
  function Insert(b: Bar, r: seq<Bar>): (t: seq<Bar>)
    ensures |t| == |r| + 1
    ensures t[0] == b || (r != [] && t[0] == r[0])
    ensures multiset(t) == multiset(r) + multiset{b}
  {
    if r == [] || r[0].count <= b.count then [b] + r
    else
      assert r == [r[0]] + r[1..];
      [r[0]] + Insert(b, r[1..])
  }

  lemma {:induction false} InsertDescending(b: Bar, r: seq<Bar>)
    requires Descending(r)
    ensures Descending(Insert(b, r))
  {
    if r != [] && r[0].count > b.count {
      InsertDescending(b, r[1..]);
      var t := Insert(b, r[1..]);
      forall j | 0 <= j < |t| ensures r[0].count >= t[j].count {
        assert t[j] in multiset(r[1..]) + multiset{b};
      }
    }
  }

  lemma {:induction false} InsertKeysAndTotal(b: Bar, r: seq<Bar>)
    ensures multiset(Labels(Insert(b, r))) == multiset(Labels(r)) + multiset{b.key}
    ensures Total(Insert(b, r)) == b.count + Total(r)
  {
    if r != [] && r[0].count > b.count {
      var t := Insert(b, r[1..]);
      assert Insert(b, r) == [r[0]] + t;
      assert Labels([r[0]] + t) == [r[0].key] + Labels(t);
      assert Labels(r) == [r[0].key] + Labels(r[1..]);
      InsertKeysAndTotal(b, r[1..]);
    } else {
      assert Labels([b] + r) == [b.key] + Labels(r);
    }
  }

  /** `ORDER BY COUNT(*) DESC`; the order among equal counts is not fixed by the queries. */
  function SortDescending(r: seq<Bar>): (t: seq<Bar>)
    ensures multiset(t) == multiset(r)
    ensures Descending(t)
  {
    if r == [] then []
    else
      var rest := SortDescending(r[1..]);
      InsertDescending(r[0], rest);
      assert r == [r[0]] + r[1..];
      Insert(r[0], rest)
  }

  /** Sorting keeps the keys and the total. */
  lemma {:induction false} SortKeysAndTotal(r: seq<Bar>)
    ensures multiset(Labels(SortDescending(r))) == multiset(Labels(r))
    ensures Total(SortDescending(r)) == Total(r)
  {
    if r != [] {
      SortKeysAndTotal(r[1..]);
      InsertKeysAndTotal(r[0], SortDescending(r[1..]));
    }
  }

  /**
   * What a grouped count report of the keys `s` with `HAVING COUNT(*) > min`
   * contains: each bar counts its key exactly, only keys above the threshold
   * appear, every such key appears, and none appears twice.
   */
  ghost predicate CountsOf(r: seq<Bar>, s: seq<string>, min: nat)
  {
    && (forall b :: b in r ==> b.count == multiset(s)[b.key] && b.count > min)
    && (forall x :: multiset(s)[x] > min ==> Bar(x, multiset(s)[x]) in r)
    && Unique(Labels(r))
  }

  /** `plot_director_count` and `plot_celebrity_count`: split names counted in more than two rows, most frequent first. */
  function PersonReport(column: seq<string>): seq<Bar>
  {
    SortDescending(Having(Group(Tokens(column)), 2))
  }

  /** `plot_genre_count`: split genres with their counts, most frequent first. */
  function GenreReport(column: seq<string>): seq<Bar>
  {
    SortDescending(Group(Tokens(column)))
  }

  /** `plot_rating_count`: one bar per content rating, most frequent first. */
  function RatingReport(ratings: seq<string>): seq<Bar>
  {
    SortDescending(Group(ratings))
  }

  /** `SUBSTR(Date_published, 1, 4)`: the first four characters, or all of a shorter date. */
  function YearOf(date: string): string
  {
    if |date| <= 4 then date else date[..4]
  }

  function YearsOf(dates: seq<string>): (r: seq<string>)
    ensures |r| == |dates| && forall i :: 0 <= i < |dates| ==> r[i] == YearOf(dates[i])
  {
    if dates == [] then [] else [YearOf(dates[0])] + YearsOf(dates[1..])
  }

  /** `plot_year_count`: one bar per year; the query fixes no order. */
  function YearReport(dates: seq<string>): seq<Bar>
  {
    Group(YearsOf(dates))
  }

  // ---------------------------------------------------------------------
  // Grouping, thresholds and ordering
  // ---------------------------------------------------------------------

  /** Every key of `s` gets one bar holding its number of occurrences. */
  lemma GroupCounts(s: seq<string>)
    ensures CountsOf(Group(s), s, 0)
  {
    var d := Distinct(s);
    var g := Group(s);
    forall b | b in g ensures b.count == multiset(s)[b.key] > 0 {
      var i :| 0 <= i < |g| && g[i] == b;
      assert d[i] in s;
    }
    forall x | multiset(s)[x] > 0 ensures Bar(x, multiset(s)[x]) in g {
      assert x in d;
      var i :| 0 <= i < |d| && d[i] == x;
      assert g[i] == Bar(x, multiset(s)[x]);
    }
  }

  /** Filtering by a threshold, then sorting, gives exactly the report the query describes. */
  lemma ThresholdReport(s: seq<string>, min: nat)
    ensures var r := SortDescending(Having(Group(s), min));
            CountsOf(r, s, min) && Descending(r)
  {
    var g := Group(s);
    var h := Having(g, min);
    var r := SortDescending(h);
    GroupCounts(s);
    SortKeysAndTotal(h);
    UniqueIffSingle(Labels(g));
    UniqueIffSingle(Labels(r));
    forall b | b in r ensures b in h {
      assert b in multiset(r);
    }
    forall x | multiset(s)[x] > min ensures Bar(x, multiset(s)[x]) in r {
      assert Bar(x, multiset(s)[x]) in g;
      assert Bar(x, multiset(s)[x]) in multiset(h);
    }
  }

  /**
   * The director and actor reports: every name split from the column counted
   * exactly, kept only when it occurs more than twice (a name in exactly two
   * rows is left out), each name once, most frequent first.
   */
  lemma PersonReportCorrect(column: seq<string>)
    ensures CountsOf(PersonReport(column), Tokens(column), 2)
    ensures Descending(PersonReport(column))
  {
    ThresholdReport(Tokens(column), 2);
  }

  /** A name occurring exactly twice is not charted; one occurring three times is, with count 3. */
  lemma PersonReportThreshold(column: seq<string>, x: string)
    ensures multiset(Tokens(column))[x] <= 2 ==> forall b :: b in PersonReport(column) ==> b.key != x
    ensures multiset(Tokens(column))[x] == 3 ==> Bar(x, 3) in PersonReport(column)
  {
    PersonReportCorrect(column);
  }

  /** Sorting bars whose counts are all positive loses none of them. */
  lemma SortedGroup(s: seq<string>)
    ensures var r := SortDescending(Group(s));
            CountsOf(r, s, 0) && Descending(r)
  {
    var g := Group(s);
    var r := SortDescending(g);
    GroupCounts(s);
    SortKeysAndTotal(g);
    UniqueIffSingle(Labels(g));
    UniqueIffSingle(Labels(r));
    forall b | b in r ensures b in g {
      assert b in multiset(r);
    }
    forall x | multiset(s)[x] > 0 ensures Bar(x, multiset(s)[x]) in r {
      assert Bar(x, multiset(s)[x]) in multiset(g);
    }
  }

  /** The genre report: every split genre with its exact count, no threshold, most frequent first. */
  lemma GenreReportCorrect(column: seq<string>)
    ensures CountsOf(GenreReport(column), Tokens(column), 0)
    ensures Descending(GenreReport(column))
  {
    SortedGroup(Tokens(column));
  }

  /** One more row raises the total of the bars by the number of times the bars' keys list that row's key. */
  lemma {:induction false} RowsAppend(keys: seq<string>, s: seq<string>, y: string)
    ensures Total(Rows(keys, s + [y])) == Total(Rows(keys, s)) + multiset(keys)[y]
  {
    if keys != [] {
      RowsAppend(keys[1..], s, y);
      assert keys == [keys[0]] + keys[1..];
      assert multiset(keys) == multiset{keys[0]} + multiset(keys[1..]);
      assert multiset(s + [y]) == multiset(s) + multiset{y};
      assert Rows(keys, s + [y])[1..] == Rows(keys[1..], s + [y]);
      assert Rows(keys, s)[1..] == Rows(keys[1..], s);
    }
  }

  lemma {:induction false} RowsOfNothing(keys: seq<string>)
    ensures Total(Rows(keys, [])) == 0
  {
    if keys != [] {
      RowsOfNothing(keys[1..]);
    }
  }

  /** Counting over keys that list every row once puts every row in exactly one bar. */
  lemma {:induction false} RowsTotal(keys: seq<string>, s: seq<string>)
    requires Unique(keys)
    requires forall x :: x in s ==> x in keys
    ensures Total(Rows(keys, s)) == |s|
  {
    if s == [] {
      RowsOfNothing(keys);
    } else {
      var init := s[..|s| - 1];
      var y := s[|s| - 1];
      assert s == init + [y];
      RowsTotal(keys, init);
      RowsAppend(keys, init, y);
      UniqueIffSingle(keys);
      assert y in s;
      assert y in multiset(keys);
    }
  }

  /** The bars of a group-by count add up to the number of rows grouped. */
  lemma GroupTotal(s: seq<string>)
    ensures Total(Group(s)) == |s|
  {
    RowsTotal(Distinct(s), s);
  }

  /**
   * The content-rating report: one bar per rating with its exact count, most
   * frequent first; every movie falls into exactly one bar, so the bars add
   * up to the number of movies.
   */
  lemma RatingReportCorrect(ratings: seq<string>)
    ensures CountsOf(RatingReport(ratings), ratings, 0)
    ensures Descending(RatingReport(ratings))
    ensures Total(RatingReport(ratings)) == |ratings|
  {
    SortedGroup(ratings);
    SortKeysAndTotal(Group(ratings));
    GroupTotal(ratings);
  }

  /** Two movies rated PG and three rated R chart as R: 3, then PG: 2. */
  lemma RatingReportExample()
    ensures RatingReport(["PG", "R", "PG", "R", "R"]) == [Bar("R", 3), Bar("PG", 2)]
  {
    GroupExample();
    SortExample();
  }

  lemma SortExample()
    ensures SortDescending([Bar("PG", 2), Bar("R", 3)]) == [Bar("R", 3), Bar("PG", 2)]
  {
    var g := [Bar("PG", 2), Bar("R", 3)];
    assert g[1..] == [Bar("R", 3)];
    assert SortDescending(g[1..]) == [Bar("R", 3)];
    assert Insert(Bar("PG", 2), [Bar("R", 3)]) == [Bar("R", 3), Bar("PG", 2)];
  }

  lemma GroupExample()
    ensures Group(["PG", "R", "PG", "R", "R"]) == [Bar("PG", 2), Bar("R", 3)]
  {
    var s := ["PG", "R", "PG", "R", "R"];
    DistinctExample();
    assert multiset(s)["PG"] == 2 && multiset(s)["R"] == 3;
  }

  lemma DistinctExample()
    ensures Distinct(["PG", "R", "PG", "R", "R"]) == ["PG", "R"]
  {
    var s := ["PG", "R", "PG", "R", "R"];
    assert s[..4] == ["PG", "R", "PG", "R"];
    assert s[..4][..3] == ["PG", "R", "PG"];
    assert s[..4][..3][..2] == ["PG", "R"];
    assert s[..4][..3][..2][..1] == ["PG"];
    assert Distinct(["PG"]) == ["PG"];
    assert Distinct(["PG", "R"]) == ["PG", "R"];
    assert Distinct(["PG", "R", "PG"]) == ["PG", "R"];
    assert Distinct(["PG", "R", "PG", "R"]) == ["PG", "R"];
  }

  /**
   * The year report: one bar per year (the first four characters of the
   * publication date) with its exact count; the bars add up to the number of movies.
   */
  lemma YearReportCorrect(dates: seq<string>)
    ensures CountsOf(YearReport(dates), YearsOf(dates), 0)
    ensures Total(YearReport(dates)) == |dates|
  {
    GroupCounts(YearsOf(dates));
    GroupTotal(YearsOf(dates));
  }

  // ---------------------------------------------------------------------
  // Splitting a joined column back into names
  // ---------------------------------------------------------------------

  /** The first comma is the one with no comma before it. */
  lemma {:induction false} FirstCommaAt(s: string, k: nat)
    requires k < |s| && s[k] == ',' && ',' !in s[..k]
    ensures FirstComma(s) == k
  {
    if k > 0 {
      assert s[0] == s[..k][0];
      assert s[1..][..k - 1] == s[..k][1..];
      FirstCommaAt(s[1..], k - 1);
    }
  }

  /** A word without commas followed by a comma is cut off whole. */
  lemma WordsCons(a: string, rest: string)
    requires ',' !in a
    requires rest == [] || rest[|rest| - 1] == ','
    ensures Words(a + "," + rest) == [a] + Words(rest)
  {
    var str := a + "," + rest;
    assert str[..|a|] == a && str[|a|] == ',';
    FirstCommaAt(str, |a|);
    assert str[|a| + 1..] == rest;
  }

  /** The names after the first, as they stand in a ", "-joined string: each after one space. */
  function Spaced(names: seq<string>): (r: seq<string>)
    ensures |r| == |names| && forall i :: 0 <= i < |names| ==> r[i] == " " + names[i]
  {
    if names == [] then [] else [" " + names[0]] + Spaced(names[1..])
  }

  lemma {:induction false} WordsOfJoin(p: string, names: seq<string>)
    requires names != [] && ',' !in p
    requires forall n :: n in names ==> ',' !in n
    ensures Words(p + Join(names, Catalog.Separator) + ",") == [p + names[0]] + Spaced(names[1..])
    decreases |names|
  {
    if |names| == 1 {
      WordsCons(p + names[0], "");
    } else {
      var tail := names[1..];
      assert tail[0] in names && names[0] in names;
      WordsOfJoin(" ", tail);
      var head, rest := p + names[0], " " + Join(tail, Catalog.Separator) + ",";
      assert Join(names, Catalog.Separator) == names[0] + ", " + Join(tail, Catalog.Separator);
      JoinShape(p, names[0], Join(tail, Catalog.Separator));
      WordsCons(head, rest);
      assert Spaced(tail) == [" " + tail[0]] + Spaced(tail[1..]);
    }
  }

  lemma JoinShape(p: string, a: string, j: string)
    ensures p + (a + ", " + j) + "," == (p + a) + "," + (" " + j + ",")
  {
    var l, r := p + (a + ", " + j) + ",", (p + a) + "," + (" " + j + ",");
    assert |l| == |r|;
    forall k | 0 <= k < |l| ensures l[k] == r[k] {
      if k < |p| + |a| {
      } else if k < |p| + |a| + 2 {
      } else {
      }
    }
  }

  /** A name that does not start with a space loses exactly the one space in front of it. */
  lemma LTrimSpaced(n: string)
    requires n == [] || n[0] != ' '
    ensures LTrim(" " + n) == n && LTrim(n) == n
  {
    var r := LTrim(" " + n);
    if |r| < |n| {
      assert (" " + n)[1] == n[0];
    }
  }

  lemma {:induction false} KeptSpaced(names: seq<string>)
    requires forall n :: n in names ==> PlainName(n)
    ensures Kept(Spaced(names)) == names
  {
    if names != [] {
      assert names[0] in names;
      LTrimSpaced(names[0]);
      KeptSpaced(names[1..]);
    }
  }

  /**
   * Splitting a ", "-joined list of plain names gives back exactly those
   * names, in order; so each name is counted once per occurrence.
   */
  lemma SplitJoin(names: seq<string>)
    requires forall n :: n in names ==> PlainName(n)
    ensures Split(Join(names, Catalog.Separator)) == names
  {
    if names == [] {
      SplitEmpty();
    } else {
      var joined := Join(names, Catalog.Separator);
      WordsOfJoin("", names);
      assert "" + joined == joined && "" + names[0] == names[0];
      var words := [names[0]] + Spaced(names[1..]);
      assert Words(joined + ",") == words;
      KeptNames(names);
      assert ([""] + words)[1..] == words;
    }
  }

  /** An empty column value contributes no name. */
  lemma SplitEmpty()
    ensures Split("") == []
  {
    WordsCons("", "");
    assert "" + "," + "" == "," == "" + ",";
    assert Words(",") == [""];
    assert Kept(["", ""]) == [];
  }

  lemma KeptNames(names: seq<string>)
    requires names != [] && forall n :: n in names ==> PlainName(n)
    ensures Kept([names[0]] + Spaced(names[1..])) == names
  {
    var words := [names[0]] + Spaced(names[1..]);
    assert words[1..] == Spaced(names[1..]);
    assert names[0] in names;
    LTrimSpaced(names[0]);
    KeptSpaced(names[1..]);
    assert names == [names[0]] + names[1..];
  }

  /** The names split from a column of joined lists are all the lists' names, each occurrence counted. */
  lemma {:induction false} TokensOfJoined(lists: seq<seq<string>>)
    requires forall l, n :: l in lists && n in l ==> PlainName(n)
    ensures Tokens(JoinEach(lists, Catalog.Separator)) == Flatten(lists)
  {
    if lists != [] {
      SplitJoin(lists[0]);
      TokensOfJoined(lists[1..]);
      assert JoinEach(lists, Catalog.Separator)[1..] == JoinEach(lists[1..], Catalog.Separator);
    }
  }

  /**
   * The emptiness test runs before the trim: a piece of spaces only survives
   * it and is then counted under the empty name.
   */
  lemma BlankPieceCounted(a: string, blank: string)
    requires PlainName(a)
    requires blank != [] && forall i :: 0 <= i < |blank| ==> blank[i] == ' '
    ensures Split(a + "," + blank) == [a, ""]
  {
    WordsCons(blank, "");
    assert Words(blank + ",") == [blank];
    assert a + "," + blank + "," == a + "," + (blank + ",");
    WordsCons(a, blank + ",");
    var words := [a, blank];
    assert Words(a + "," + blank + ",") == words;
    LTrimSpaced(a);
    assert LTrim(blank) == "";
    assert ([""] + words)[1..] == words;
    assert words[1..] == [blank];
    assert Kept([blank]) == [""];
    assert Kept(words) == [a] + Kept([blank]);
    assert Kept([""] + words) == Kept(words);
  }

  // ---------------------------------------------------------------------
  // From the catalog to the charts
  // ---------------------------------------------------------------------

  /** The joined fields of a movie split back into the names they were built from. */
  lemma DerivedFieldsSplit(meta: Catalog.Metadata)
    requires forall n :: n in Catalog.DirectorNames(meta.director) ==> PlainName(n)
    requires forall n :: n in Catalog.Names(meta.actor) ==> PlainName(n)
    requires forall n :: n in Catalog.GenreNames(meta.genre) ==> PlainName(n)
    ensures Split(Catalog.Derive(meta).director) == Catalog.DirectorNames(meta.director)
    ensures Split(Catalog.Derive(meta).stars) == Catalog.Names(meta.actor)
    ensures Split(Catalog.Derive(meta).genre) == Catalog.GenreNames(meta.genre)
  {
    SplitJoin(Catalog.DirectorNames(meta.director));
    SplitJoin(Catalog.Names(meta.actor));
    SplitJoin(Catalog.GenreNames(meta.genre));
  }

  /** The director names of each movie, movie by movie. */
  function DirectorLists(metas: seq<Catalog.Metadata>): (r: seq<seq<string>>)
    ensures |r| == |metas| && forall i :: 0 <= i < |metas| ==> r[i] == Catalog.DirectorNames(metas[i].director)
  {
    if metas == [] then [] else [Catalog.DirectorNames(metas[0].director)] + DirectorLists(metas[1..])
  }

  /** The actor names of each movie, movie by movie. */
  function ActorLists(metas: seq<Catalog.Metadata>): (r: seq<seq<string>>)
    ensures |r| == |metas| && forall i :: 0 <= i < |metas| ==> r[i] == Catalog.Names(metas[i].actor)
  {
    if metas == [] then [] else [Catalog.Names(metas[0].actor)] + ActorLists(metas[1..])
  }

  /** The `DirectorName` column `insert_directors` writes: each movie's derived director field. */
  function DirectorColumn(metas: seq<Catalog.Metadata>): (r: seq<string>)
    ensures |r| == |metas| && forall i :: 0 <= i < |metas| ==> r[i] == Catalog.Derive(metas[i]).director
  {
    JoinEach(DirectorLists(metas), Catalog.Separator)
  }

  /** The `StarName` column `insert_stars` writes: each movie's derived stars field. */
  function StarColumn(metas: seq<Catalog.Metadata>): (r: seq<string>)
    ensures |r| == |metas| && forall i :: 0 <= i < |metas| ==> r[i] == Catalog.Derive(metas[i]).stars
  {
    JoinEach(ActorLists(metas), Catalog.Separator)
  }

  /** A chart over joined lists of plain names counts the names of the lists themselves. */
  lemma JoinedListsReport(column: seq<string>, lists: seq<seq<string>>)
    requires column == JoinEach(lists, Catalog.Separator)
    requires forall i, n :: 0 <= i < |lists| && n in lists[i] ==> PlainName(n)
    ensures CountsOf(PersonReport(column), Flatten(lists), 2)
    ensures Descending(PersonReport(column))
  {
    forall l, n | l in lists && n in l ensures PlainName(n) {
      var i :| 0 <= i < |lists| && lists[i] == l;
    }
    TokensOfJoined(lists);
    PersonReportCorrect(column);
  }

  /**
   * The director chart of a built catalog: every director with more than two
   * credits across the movies' director lists, with that number of credits (a
   * name listed twice for one movie counts twice, as the query counts it).
   */
  lemma DirectorChartOfCatalog(metas: seq<Catalog.Metadata>)
    requires forall i, n :: 0 <= i < |metas| && n in Catalog.DirectorNames(metas[i].director) ==> PlainName(n)
    ensures CountsOf(PersonReport(DirectorColumn(metas)), Flatten(DirectorLists(metas)), 2)
    ensures Descending(PersonReport(DirectorColumn(metas)))
  {
    var column, lists := DirectorColumn(metas), DirectorLists(metas);
    assert forall i, n :: 0 <= i < |lists| && n in lists[i] ==> PlainName(n);
    JoinedListsReport(column, lists);
  }

  /** The actor chart of a built catalog: every star with more than two credits across the movies' actor lists, with that number. */
  lemma ActorChartOfCatalog(metas: seq<Catalog.Metadata>)
    requires forall i, n :: 0 <= i < |metas| && n in Catalog.Names(metas[i].actor) ==> PlainName(n)
    ensures CountsOf(PersonReport(StarColumn(metas)), Flatten(ActorLists(metas)), 2)
    ensures Descending(PersonReport(StarColumn(metas)))
  {
    var column, lists := StarColumn(metas), ActorLists(metas);
    assert forall i, n :: 0 <= i < |lists| && n in lists[i] ==> PlainName(n);
    JoinedListsReport(column, lists);
  }
}
