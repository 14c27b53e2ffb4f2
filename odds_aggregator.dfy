/**
 * `get_odds` after the fetch: the triples of every table row folded into three
 * maps from candidate name to odds, one per race, with any error raised while
 * scraping turned into one `ScraperError`.
 */
module OddsAggregator {
  import opened Wrappers
  import opened Markup
  import opened OddParser
  import opened RowScraper

  /** One race's odds: candidate name to odds, where the odds may be `None`. */
  type RaceOdds = map<string, Option<real>>

  /** The three maps `get_odds` returns. */
  datatype Races = Races(dem: RaceOdds, rep: RaceOdds, pres: RaceOdds) {
    function Get(race: Race): RaceOdds {
      match race
      case Democratic => dem
      case Republican => rep
      case Presidential => pres
    }
  }

  /** The one error `get_odds` raises when the page cannot be scraped. */
  datatype ScraperError = ScraperError(message: string)

  const ParseFailureMessage: string := "Could not parse the page"

  /** The `except` clause: each caught kind of exception becomes the same `ScraperError`. */
  function Catch(e: PyError): (err: ScraperError)
    ensures err.message == "Could not parse the page"
  {
    match e
    case IndexError => ScraperError(ParseFailureMessage)
    case ValueError => ScraperError(ParseFailureMessage)
    case TypeError => ScraperError(ParseFailureMessage)
    case AttributeError => ScraperError(ParseFailureMessage)
  }

  // ---------------------------------------------------------------------------
  // Specification
  // ---------------------------------------------------------------------------

  /** Row `i` is the first of `results` that failed. */
  predicate FailsFirstAt(results: seq<Result<Triple, PyError>>, i: int) {
    0 <= i < |results| && results[i].Failure? && forall j :: 0 <= j < i ==> results[j].Success?
  }

  /**
   * What a `for` loop takes from the generator: every triple when no row
   * fails, otherwise the error of the first row that fails.
   */
  function Consume(results: seq<Result<Triple, PyError>>): (r: Result<seq<Triple>, PyError>)
    ensures r.Success? <==> forall i :: 0 <= i < |results| ==> results[i].Success?
    ensures r.Success? ==> |r.value| == |results| && forall i :: 0 <= i < |results| ==> results[i] == Success(r.value[i])
    ensures r.Failure? ==> exists i :: FailsFirstAt(results, i) && results[i].error == r.error
  {
    if results == [] then Success([])
    else
      var t :- results[0];
      var rest :- Consume(results[1..]);
      Success([t] + rest)
  }

  /** One entry stored into a race's map: `odds[name] = odds` when the entry has a name. */
  function Record(odds: RaceOdds, e: Entry): (r: RaceOdds)
    ensures e.name.None? ==> r == odds
    ensures e.name.Some? ==> r.Keys == odds.Keys + {e.name.value} && r[e.name.value] == e.odds
    ensures forall k :: k in odds && Some(k) != e.name ==> r[k] == odds[k]
  {
    if e.name.Some? then odds[e.name.value := e.odds] else odds
  }

  /** A race's map after the entries `es`, recorded one after the other into an empty map. */
  function RaceFold(es: seq<Entry>): (r: RaceOdds)
    ensures |r| <= |es|
  {
    if es == [] then map[] else Record(RaceFold(es[..|es| - 1]), es[|es| - 1])
  }

  /** The entries a sequence of triples holds for one race. */
  function Column(ts: seq<Triple>, race: Race): seq<Entry> {
    seq(|ts|, i requires 0 <= i < |ts| => ts[i].Get(race))
  }

  /** One more triple adds its entry for the race at the end of that race's column. */
  lemma ColumnAppend(ts: seq<Triple>, t: Triple)
    ensures forall race :: Column(ts + [t], race) == Column(ts, race) + [t.Get(race)]
  {
  }

  /**
   * The three maps after the triples `ts`, each triple updating the three maps
   * in turn. Each race's map is the fold of that race's own column alone.
   */
  function Fold(ts: seq<Triple>): (r: Races)
    ensures forall race :: r.Get(race) == RaceFold(Column(ts, race))
  {
    if ts == [] then Races(map[], map[], map[])
    else
      var before, t := Fold(ts[..|ts| - 1]), ts[|ts| - 1];
      ColumnAppend(ts[..|ts| - 1], t);
      assert ts[..|ts| - 1] + [t] == ts;
      Races(Record(before.dem, t.dem), Record(before.rep, t.rep), Record(before.pres, t.pres))
  }

  /** The result of `get_odds` on a page whose odds table has the rows `rows`. */
  function OddsOf(rows: seq<Row>, float: FloatParser): (r: Result<Races, ScraperError>)
    ensures r.Failure? ==> r.error == ScraperError("Could not parse the page")
  {
    match Consume(ScrapeOdds(rows, float))
    case Failure(e) => Failure(Catch(e))
    case Success(ts) => Success(Fold(ts))
  }

  /** The first failing row decides the error the loop ends with. */
  lemma FirstFailureDecides(results: seq<Result<Triple, PyError>>, i: int)
    requires FailsFirstAt(results, i)
    ensures Consume(results) == Failure(results[i].error)
  {
  }

  /** Folding one more triple updates each of the three maps with its entry. */
  lemma FoldStep(ts: seq<Triple>, t: Triple)
    ensures Fold(ts + [t]) == Races(Record(Fold(ts).dem, t.dem), Record(Fold(ts).rep, t.rep), Record(Fold(ts).pres, t.pres))
  {
  }

  // ---------------------------------------------------------------------------
  // The loop of get_odds
  // ---------------------------------------------------------------------------

  /**
   * The body of `get_odds` from the three empty dicts on: the triples of the
   * generator recorded into the three maps, and the first error turned into
   * `ScraperError` with nothing of the maps returned.
   */
  method GetOdds(rows: seq<Row>, float: FloatParser) returns (r: Result<Races, ScraperError>)
    ensures r == OddsOf(rows, float)
  {
    var dOdds: RaceOdds, rOdds: RaceOdds, pOdds: RaceOdds := map[], map[], map[];
    var triples := ScrapeOdds(rows, float);
    ghost var done: seq<Triple> := [];
    for i := 0 to |triples|
      invariant |done| == i
      invariant forall j :: 0 <= j < i ==> triples[j] == Success(done[j])
      invariant Races(dOdds, rOdds, pOdds) == Fold(done)
    {
      if triples[i].Failure? {
        FirstFailureDecides(triples, i);
        return Failure(Catch(triples[i].error));
      }
      var Triple(d, rep, p) := triples[i].value;
      ghost var before := Races(dOdds, rOdds, pOdds);
      if d.name.Some? {
        dOdds := dOdds[d.name.value := d.odds];
      }
      if rep.name.Some? {
        rOdds := rOdds[rep.name.value := rep.odds];
      }
      if p.name.Some? {
        pOdds := pOdds[p.name.value := p.odds];
      }
      assert Races(dOdds, rOdds, pOdds) == Races(Record(before.dem, d), Record(before.rep, rep), Record(before.pres, p));
      FoldStep(done, triples[i].value);
      done := done + [triples[i].value];
    }
    assert Consume(triples).value == done;
    return Success(Races(dOdds, rOdds, pOdds));
  }

  // ---------------------------------------------------------------------------
  // Properties of a race's map
  // ---------------------------------------------------------------------------

  /** Entry `i` is the last of `es` that names the candidate `name`. */
  predicate LastNamed(es: seq<Entry>, i: int, name: string) {
    0 <= i < |es| && es[i].name == Some(name) && forall j :: i < j < |es| ==> es[j].name != Some(name)
  }

  /** A race's map holds exactly the names some entry carries; entries without a name add nothing. */
  lemma {:induction false} RaceFoldKeys(es: seq<Entry>, name: string)
    ensures name in RaceFold(es) <==> exists i :: 0 <= i < |es| && es[i].name == Some(name)
  {
    if es != [] {
      var n := |es| - 1;
      RaceFoldKeys(es[..n], name);
      if es[n].name != Some(name) && name in RaceFold(es) {
        var i :| 0 <= i < n && es[..n][i].name == Some(name);
        assert es[i] == es[..n][i];
      }
      if es[n].name != Some(name) && exists i :: 0 <= i < |es| && es[i].name == Some(name) {
        var i :| 0 <= i < |es| && es[i].name == Some(name);
        assert es[..n][i] == es[i];
      }
    }
  }

  /** Last write wins: a name maps to the odds of the last entry that carries it. */
  lemma {:induction false} RaceFoldLastWriteWins(es: seq<Entry>, i: int, name: string)
    requires LastNamed(es, i, name)
    ensures name in RaceFold(es) && RaceFold(es)[name] == es[i].odds
  {
    var n := |es| - 1;
    if i < n {
      assert LastNamed(es[..n], i, name);
      RaceFoldLastWriteWins(es[..n], i, name);
    }
  }

  /** Two entries for `foo`, with odds 10.0 and then 20.0, leave `foo` at 20.0. */
  lemma ExampleLastWriteWins()
    ensures RaceFold([Entry(Some("foo"), Some(10.0)), Entry(Some("foo"), Some(20.0))]) == map["foo" := Some(20.0)]
  {
  }

  // ---------------------------------------------------------------------------
  // Properties of get_odds
  // ---------------------------------------------------------------------------

  /** Every row of the table scrapes without raising. */
  predicate AllRowsParse(rows: seq<Row>, float: FloatParser) {
    forall i :: 0 <= i < |rows| ==> ScrapeRow(rows[i], float).Success?
  }

  /** The entries the rows hold for one race, in document order. */
  function RaceEntries(rows: seq<Row>, race: Race, float: FloatParser): (es: seq<Entry>)
    requires AllRowsParse(rows, float)
    ensures |es| == |rows|
    ensures forall i :: 0 <= i < |rows| ==> es[i] == ScrapeRow(rows[i], float).value.Get(race)
  {
    var results := ScrapeOdds(rows, float);
    assert forall i :: 0 <= i < |results| ==> results[i].Success?;
    Column(Consume(results).value, race)
  }

  /**
   * Failure is all or nothing: `get_odds` returns its maps exactly when every
   * row scrapes, and otherwise raises the one `ScraperError` and no map.
   */
  lemma FailureIsAtomic(rows: seq<Row>, float: FloatParser)
    ensures OddsOf(rows, float).Success? <==> AllRowsParse(rows, float)
    ensures OddsOf(rows, float).Failure? ==> OddsOf(rows, float) == Failure(ScraperError("Could not parse the page"))
  {
  }

  /** A row with fewer than six cells makes the whole page fail. */
  lemma ShortRowFails(rows: seq<Row>, i: int, float: FloatParser)
    requires 0 <= i < |rows| && |rows[i]| < 6
    ensures OddsOf(rows, float) == Failure(ScraperError("Could not parse the page"))
  {
  }

  /** A table without rows gives three empty maps, not an error. */
  lemma EmptyTable(float: FloatParser)
    ensures OddsOf([], float) == Success(Races(map[], map[], map[]))
  {
  }

  /** Each race's map is the fold of that race's entries alone, one per row in document order. */
  lemma RaceOddsFromOwnEntries(rows: seq<Row>, race: Race, float: FloatParser)
    requires AllRowsParse(rows, float)
    ensures OddsOf(rows, float).Success?
    ensures OddsOf(rows, float).value.Get(race) == RaceFold(RaceEntries(rows, race, float))
  {
  }

  /** The candidates in a race's map are exactly those some row names for that race. */
  lemma NamedCandidates(rows: seq<Row>, race: Race, float: FloatParser, name: string)
    requires AllRowsParse(rows, float)
    ensures OddsOf(rows, float).Success?
    ensures name in OddsOf(rows, float).value.Get(race)
        <==> exists i :: 0 <= i < |rows| && RaceEntries(rows, race, float)[i].name == Some(name)
  {
    RaceOddsFromOwnEntries(rows, race, float);
    RaceFoldKeys(RaceEntries(rows, race, float), name);
  }

  /** A candidate's odds in a race's map are those of the last row that names it for that race. */
  lemma LastRowWins(rows: seq<Row>, race: Race, float: FloatParser, i: int, name: string)
    requires AllRowsParse(rows, float)
    requires LastNamed(RaceEntries(rows, race, float), i, name)
    ensures OddsOf(rows, float).Success?
    ensures name in OddsOf(rows, float).value.Get(race)
    ensures OddsOf(rows, float).value.Get(race)[name] == ScrapeRow(rows[i], float).value.Get(race).odds
  {
    RaceOddsFromOwnEntries(rows, race, float);
    RaceFoldLastWriteWins(RaceEntries(rows, race, float), i, name);
  }

  /** Two rows share a race's image and percentage cells. */
  predicate SamePair(a: Row, b: Row, race: Race) {
    |a| >= 6 && |b| >= 6 && a[FirstColumn(race)] == b[FirstColumn(race)] && a[FirstColumn(race) + 1] == b[FirstColumn(race) + 1]
  }

  /**
   * Races are independent: two pages that scrape and agree on one race's cell
   * pairs row by row give that race the same map, whatever their other cells.
   */
  lemma RacesIndependent(rows: seq<Row>, others: seq<Row>, race: Race, float: FloatParser)
    requires AllRowsParse(rows, float) && AllRowsParse(others, float)
    requires |rows| == |others| && forall i :: 0 <= i < |rows| ==> SamePair(rows[i], others[i], race)
    ensures OddsOf(rows, float).Success? && OddsOf(others, float).Success?
    ensures OddsOf(rows, float).value.Get(race) == OddsOf(others, float).value.Get(race)
  {
    RaceOddsFromOwnEntries(rows, race, float);
    RaceOddsFromOwnEntries(others, race, float);
    assert RaceEntries(rows, race, float) == RaceEntries(others, race, float);
  }
}
