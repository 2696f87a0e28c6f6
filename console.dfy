/**
 * `interactive_prompt` of movie.py: a loop that reads a command per line and
 * either prints the help text, opens a movie's page, draws one of the five
 * charts, says goodbye, or says the command was not recognised. Reading a
 * line is taking the next element of `inputs`; every effect becomes an
 * `Action` in the returned trace.
 */
module Console {
  import Catalog
  import opened Wrappers

  /** The five charts, one per report query. */
  datatype Chart = DirectorChart | GenreChart | ActorChart | RatedChart | YearChart

  /** What one command makes the program do. */
  datatype Action =
    | ShowHelp              // print the help text and continue
    | OpenLink(url: string) // open a movie's page in the browser
    | Draw(chart: Chart)    // generate and show a chart
    | Bye                   // print "Bye..." and leave the loop
    | NotRecognized         // print "Command not recognized..."

  /** Python's `str.lower()` on ASCII letters. */
  function LowerChar(c: char): char
  {
    if 'A' <= c <= 'Z' then (c as int + 32) as char else c
  }

  function Lower(s: string): (r: string)
    ensures |r| == |s| && forall i :: 0 <= i < |s| ==> r[i] == LowerChar(s[i])
  {
    if s == [] then [] else [LowerChar(s[0])] + Lower(s[1..])
  }

  /** A lower-case ASCII word, such as the five chart keywords. */
  predicate LowerWord(w: string)
  {
    forall i :: 0 <= i < |w| ==> 'a' <= w[i] <= 'z'
  }

  /** `s` spells `w` with any of its letters in upper case. */
  predicate SpelledAs(s: string, w: string)
  {
    |s| == |w| && forall i :: 0 <= i < |s| ==> s[i] == w[i] || s[i] as int == w[i] as int - 32
  }

  /** Comparing `s.lower()` with a lower-case word accepts exactly the spellings of that word in any case. */
  lemma LowerMatches(s: string, w: string)
    requires LowerWord(w)
    ensures Lower(s) == w <==> SpelledAs(s, w)
  {
    if SpelledAs(s, w) {
      forall i | 0 <= i < |s| ensures Lower(s)[i] == w[i] {
      }
    }
    if Lower(s) == w {
      forall i | 0 <= i < |s| ensures s[i] == w[i] || s[i] as int == w[i] as int - 32 {
        assert LowerChar(s[i]) == w[i];
      }
    }
  }

  /** The chart a command names, compared case-insensitively. */
  function ChartNamed(response: string): (r: Option<Chart>)
  {
    if Lower(response) == "director" then Some(DirectorChart)
    else if Lower(response) == "genre" then Some(GenreChart)
    else if Lower(response) == "actor" then Some(ActorChart)
    else if Lower(response) == "rated" then Some(RatedChart)
    else if Lower(response) == "year" then Some(YearChart)
    else None
  }

  /**
   * One pass of the loop body: the checks in the program's order. An exact
   * 'help' comes first, then an exact movie name, then a chart keyword in any
   * case, then an exact 'exit'.
   */
  function Dispatch(response: string, movies: map<string, Catalog.Movie>): Action
  {
    if response == "help" then ShowHelp
    else if response in movies then OpenLink(movies[response].fullLink)
    else if ChartNamed(response).Some? then Draw(ChartNamed(response).value)
    else if response == "exit" then Bye
    else NotRecognized
  }

  /**
   * Which command does what: each action happens exactly when its own test
   * passes and no earlier test did.
   */
  lemma DispatchPrecedence(response: string, movies: map<string, Catalog.Movie>)
    ensures var a := Dispatch(response, movies);
      && (a == ShowHelp <==> response == "help")
      && (a.OpenLink? <==> response != "help" && response in movies)
      && (a.OpenLink? ==> a.url == movies[response].fullLink)
      && (a.Draw? <==> response != "help" && response !in movies && ChartNamed(response).Some?)
      && (a.Draw? ==> a.chart == ChartNamed(response).value)
      && (a == Bye <==> response == "exit" && response !in movies)
      && (a == NotRecognized <==>
            response != "help" && response !in movies && ChartNamed(response).None? && response != "exit")
  {
  }

  /** The chart keywords, tried in this order after the movie names. */
  lemma ChartKeywords(response: string)
    ensures ChartNamed(response) == Some(DirectorChart) <==> SpelledAs(response, "director")
    ensures ChartNamed(response) == Some(GenreChart) <==> SpelledAs(response, "genre")
    ensures ChartNamed(response) == Some(ActorChart) <==> SpelledAs(response, "actor")
    ensures ChartNamed(response) == Some(RatedChart) <==> SpelledAs(response, "rated")
    ensures ChartNamed(response) == Some(YearChart) <==> SpelledAs(response, "year")
    ensures ChartNamed(response) == None <==>
              !SpelledAs(response, "director") && !SpelledAs(response, "genre") && !SpelledAs(response, "actor")
              && !SpelledAs(response, "rated") && !SpelledAs(response, "year")
  {
    LowerMatches(response, "director");
    LowerMatches(response, "genre");
    LowerMatches(response, "actor");
    LowerMatches(response, "rated");
    LowerMatches(response, "year");
  }

  /** Only the exact word ends the session: "EXIT" is not recognised (unless a movie bears that name). */
  lemma ExitIsCaseSensitive(movies: map<string, Catalog.Movie>)
    requires "EXIT" !in movies
    ensures Dispatch("EXIT", movies) == NotRecognized
  {
    assert Lower("EXIT") == "exit";
  }

  /** A chart keyword in capitals draws its chart, unless a movie has exactly that name. */
  lemma KeywordInCapitals(movies: map<string, Catalog.Movie>)
    requires "YEAR" !in movies
    ensures Dispatch("YEAR", movies) == Draw(YearChart)
  {
    LowerMatches("YEAR", "year");
  }

  /** Any spelling of a chart keyword draws that chart, unless it is a movie's exact name. */
  lemma ChartInAnyCase(response: string, movies: map<string, Catalog.Movie>)
    requires response !in movies
    ensures SpelledAs(response, "director") ==> Dispatch(response, movies) == Draw(DirectorChart)
    ensures SpelledAs(response, "genre") ==> Dispatch(response, movies) == Draw(GenreChart)
    ensures SpelledAs(response, "actor") ==> Dispatch(response, movies) == Draw(ActorChart)
    ensures SpelledAs(response, "rated") ==> Dispatch(response, movies) == Draw(RatedChart)
    ensures SpelledAs(response, "year") ==> Dispatch(response, movies) == Draw(YearChart)
  {
    ChartKeywords(response);
  }

  /**
   * `interactive_prompt()`: read commands until one is exactly 'exit'. The
   * `break` in the 'exit' branch leaves the loop exactly when its condition
   * would, and the condition also stops the loop after a movie named 'exit'
   * was opened. Running out of input ends the loop without an exit.
   */
  method InteractivePrompt(inputs: seq<string>, movies: map<string, Catalog.Movie>)
    returns (actions: seq<Action>, exited: bool)
    ensures |actions| <= |inputs|
    ensures forall j :: 0 <= j < |actions| ==> actions[j] == Dispatch(inputs[j], movies)
    ensures forall j :: 0 <= j < |actions| - 1 ==> inputs[j] != "exit"
    ensures exited <==> |actions| > 0 && inputs[|actions| - 1] == "exit"
    ensures !exited ==> |actions| == |inputs|
    ensures exited <==> "exit" in inputs
  {
    var response := "";
    actions := [];
    while |actions| < |inputs| && response != "exit"
      invariant |actions| <= |inputs|
      invariant forall j :: 0 <= j < |actions| ==> actions[j] == Dispatch(inputs[j], movies)
      invariant forall j :: 0 <= j < |actions| - 1 ==> inputs[j] != "exit"
      invariant response == if actions == [] then "" else inputs[|actions| - 1]
    {
      response := inputs[|actions|];
      actions := actions + [Dispatch(response, movies)];
    }
    exited := response == "exit";
    if !exited {
      forall j | 0 <= j < |inputs| ensures inputs[j] != "exit" {
      }
    }
  }
}
