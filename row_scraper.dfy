/**
 * `_scrape_odds`: every row of the odds table read into one triple of entries,
 * for the democratic, republican and presidential races, in document order.
 */
module RowScraper {
  import opened Wrappers
  import opened Markup
  import opened OddParser

  /** The three races a table row covers, left to right. */
  datatype Race = Democratic | Republican | Presidential

  /** The entries one row yields, one per race. */
  datatype Triple = Triple(dem: Entry, rep: Entry, pres: Entry) {
    function Get(race: Race): Entry {
      match race
      case Democratic => dem
      case Republican => rep
      case Presidential => pres
    }
  }

  /** The index of the image cell of a race; its percentage cell follows it. */
  function FirstColumn(race: Race): (i: nat)
    ensures i + 2 <= 6
  {
    match race
    case Democratic => 0
    case Republican => 2
    case Presidential => 4
  }

  /**
   * `_parse_odd(cols[i], cols[i + 1])`: indexing a missing cell raises
   * `IndexError` before the pair is parsed. Parsing itself never raises
   * `IndexError`, so that error means exactly that a cell of the pair is missing.
   */
  function ParsePair(cols: Row, i: nat, float: FloatParser): (r: Result<Entry, PyError>)
    ensures r == Failure(IndexError) <==> |cols| < i + 2
  {
    if |cols| < i + 2 then Failure(IndexError) else ParseOdd(cols[i], cols[i + 1], float)
  }

  /**
   * One row: the pairs (0, 1), (2, 3) and (4, 5) parsed in that order, the first
   * error raised ending the row. Cells from index 6 on are never looked at.
   */
  function ScrapeRow(cols: Row, float: FloatParser): (r: Result<Triple, PyError>)
    ensures |cols| < 6 ==> r.Failure?
    ensures r.Success? <==> |cols| >= 6 && forall race :: ParseOdd(cols[FirstColumn(race)], cols[FirstColumn(race) + 1], float).Success?
    ensures r.Success? ==> forall race :: r.value.Get(race) == ParseOdd(cols[FirstColumn(race)], cols[FirstColumn(race) + 1], float).value
    ensures r.Failure? && r.error == IndexError ==> |cols| < 6
  {
    assert FirstColumn(Democratic) == 0 && FirstColumn(Republican) == 2 && FirstColumn(Presidential) == 4;
    var dem :- ParsePair(cols, 0, float);
    var rep :- ParsePair(cols, 2, float);
    var pres :- ParsePair(cols, 4, float);
    Success(Triple(dem, rep, pres))
  }

  /** Cells past index 5 do not change what a row yields. */
  lemma ExtraCellsIgnored(cols: Row, float: FloatParser)
    requires |cols| >= 6
    ensures ScrapeRow(cols, float) == ScrapeRow(cols[..6], float)
  {
  }

  /**
   * The generator: one result per table row, in document order. Consumers stop
   * at the first failure, so the rows after it are never looked at.
   */
  function ScrapeOdds(rows: seq<Row>, float: FloatParser): (r: seq<Result<Triple, PyError>>)
    ensures |r| == |rows|
    ensures forall i :: 0 <= i < |rows| ==> r[i] == ScrapeRow(rows[i], float)
  {
    if rows == [] then [] else [ScrapeRow(rows[0], float)] + ScrapeOdds(rows[1..], float)
  }
}
