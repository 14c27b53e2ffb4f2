# electionodds — a Dafny model of the odds scraper

`electionodds` fetches a betting-odds page and reads, from one table, three maps
from candidate name to odds: one for the democratic race, one for the republican
race and one for the presidential race. This project models the scraping core of
`electionodds.py` and proves what it does.

- `wrappers.dfy` (`Wrappers`): `Option` (Python's `None` or a value) and `Result` (a value or a raised error).
- `markup.dfy` (`Markup`): the page with the HTML library abstracted away. A row is a sequence of `<td>`
  cells. A cell holds its `<img>` elements, each with an optional `src`, and its `<p>` elements, each
  with optional `text`. The module also holds the Python exceptions the scraper can raise, `float` as a
  parameter, and Python's slice semantics (`s[start:stop]`, negative bounds, clamping).
- `odd_parser.dfy` (`OddParser`): `_parse_odd`, one image cell and one percentage cell read into an optional
  name and optional odds.
- `row_scraper.dfy` (`RowScraper`): `_scrape_odds`, each row read into a triple of entries from the
  cell pairs (0, 1), (2, 3) and (4, 5).
- `odds_aggregator.dfy` (`OddsAggregator`): the loop of `get_odds`. `GetOdds` is a method that updates
  three local maps row by row, as the source updates its three dicts. It is proved equal to the
  specification function `OddsOf`, and the lemmas below are about `OddsOf`.

Four behaviours of the code that the model keeps:
- A `<p>` whose text is the empty string is not `None`. `float("")` then raises `ValueError`, so the page
  fails. It does not give absent odds.
- A row may have more than six cells; cells from index 6 on are ignored.
- A short row usually fails with `IndexError`. It fails with `TypeError` or `ValueError` instead when an
  earlier, complete pair fails first, because the pairs are indexed and parsed one after the other.
  Either way the page fails.
- A cell pair with no `<img>` still fails the page when `float` rejects its label without the last
  character: the odds are read whatever the name is.

## Model

| member | source | states |
|---|---|---|
| `Markup.SliceBound` | electionodds.py:33 | Python's normalisation of one slice bound (a negative bound counts from the end, then clamped) always lands within `0..n`, so a slice never raises |
| `Markup.Slice` | electionodds.py:41 | Python's `s[start:stop]` never raises and is never longer than `s`; StripName and StripPercent give its closed forms for `[1:-4]` and `[:-1]` |
| `OddParser.StripName` | electionodds.py:32-33 | `src[1:-4]`: for a `src` of at least five characters, the characters between the first and the last four; shorter paths give the empty name, never an error |
| `OddParser.StripPercent` | electionodds.py:40-41 | `text[:-1]`: a non-empty label is the result followed by one character; the empty label gives the empty string |
| `OddParser.NameRoundTrip` | electionodds.py:32-33 | for a path of the page's convention, one leading character, the name, then a four-character extension, StripName gives the name back |
| `OddParser.PercentRoundTrip` | electionodds.py:40-41 | a number followed by `%` is stripped back to the number |
| `OddParser.ParseOdd` | electionodds.py:18-45 | fails exactly when the first `<img>` has no `src` (`TypeError`) or the first `<p>` has text whose stripped form `float` rejects (`ValueError`); the name is `None` exactly when the cell has no `<img>`, otherwise the stripped `src` of the first one; the odds are `None` exactly when there is no `<p>` or its text is `None`, otherwise `float` of the stripped text |
| `OddParser.EmptyRemainderFails` | electionodds.py:39-41 | a label that is only `%` hands the empty string to `float`; when `float` rejects it, the pair fails with `ValueError` |
| `OddParser.NamelessPairStillReadsOdds` | electionodds.py:31-41 | a pair whose image cell has no `<img>` still fails with `ValueError` when `float` rejects its label's remainder |
| `OddParser.OnlyFirstElementsRead` | electionodds.py:29-43 | only the first `<img>` of the image cell and the first `<p>` of the percentage cell affect the result |
| `OddParser.ExamplePair` | electionodds.py:29-45 | `/foo.png` with `37.5%` gives the name `foo` and the odds `float("37.5")` |
| `RowScraper.ParsePair` | electionodds.py:64-66 | `_parse_odd(cols[i], cols[i + 1])`: the result is `IndexError` exactly when the row lacks one of the pair's two cells, since parsing itself never raises `IndexError` |
| `RowScraper.ScrapeRow` | electionodds.py:62-68 | a row with fewer than six cells fails; a row succeeds exactly when it has six cells and the pairs (0, 1), (2, 3), (4, 5) all parse, and then each race's entry is its pair's parse; `IndexError` only comes from a short row |
| `RowScraper.ExtraCellsIgnored` | electionodds.py:62-66 | a row's result depends only on its first six cells |
| `RowScraper.ScrapeOdds` | electionodds.py:48-68 | one result per table row, in document order, each the row's `ScrapeRow` |
| `OddsAggregator.Catch` | electionodds.py:113-114 | each of the four caught kinds of exception becomes the `ScraperError` datatype (the class at electionodds.py:13-15) with the message "Could not parse the page", whatever the kind |
| `OddsAggregator.OddsOf` | electionodds.py:98-114 | the result of the `try` block after the fetch; every failure is exactly `ScraperError("Could not parse the page")` and carries no map |
| `OddsAggregator.Record` | electionodds.py:105-110 | one conditional store: an entry without a name leaves the map unchanged; an entry with a name sets that key to its odds, possibly `None`, adds no other key and changes no other key's odds |
| `OddsAggregator.RaceFold` | electionodds.py:103-110 | one race's map after its entries are stored in order into an empty dict; it never holds more keys than there were entries (its other properties are RaceFoldKeys and RaceFoldLastWriteWins) |
| `OddsAggregator.ColumnAppend` | electionodds.py:103-104 | one more row adds its entry for a race at the end of that race's entries, so the rows stay in document order |
| `OddsAggregator.Consume` | electionodds.py:102-104 | the loop over the generator takes every triple, in order, when no row fails; otherwise the error of the first row that fails |
| `OddsAggregator.FirstFailureDecides` | electionodds.py:102-104 | the first failing row decides the error the loop stops with |
| `OddsAggregator.Fold` | electionodds.py:98-110 | the three maps after a sequence of triples are each the fold of that race's own entries alone |
| `OddsAggregator.FoldStep` | electionodds.py:105-110 | one more triple updates each of the three maps with its own entry |
| `OddsAggregator.GetOdds` | electionodds.py:98-114 | the loop over three local maps returns exactly `OddsOf(rows, float)`: the folded maps, or the one `ScraperError` at the first failing row |
| `OddsAggregator.RaceFoldKeys` | electionodds.py:105-110 | a race's map holds a name exactly when some entry carries that name; an entry without a name adds nothing |
| `OddsAggregator.RaceFoldLastWriteWins` | electionodds.py:103-110 | a name maps to the odds, possibly `None`, of the last entry that carries it |
| `OddsAggregator.ExampleLastWriteWins` | electionodds.py:105-106 | `foo` at 10.0 and then `foo` at 20.0 leaves `foo` at 20.0 |
| `OddsAggregator.FailureIsAtomic` | electionodds.py:102-114 | `get_odds` returns maps exactly when every row scrapes, and otherwise returns `ScraperError("Could not parse the page")` and no map |
| `OddsAggregator.ShortRowFails` | electionodds.py:64-66 | any row with fewer than six cells makes the whole page fail with `ScraperError` |
| `OddsAggregator.EmptyTable` | electionodds.py:98-100 | a table with no rows gives three empty maps, not an error |
| `OddsAggregator.RaceOddsFromOwnEntries` | electionodds.py:103-110 | each race's map is the fold of that race's entries, one per row in document order |
| `OddsAggregator.NamedCandidates` | electionodds.py:105-110 | the names in a race's map are exactly those that some row gives for that race |
| `OddsAggregator.LastRowWins` | electionodds.py:103-110 | a name's odds in a race's map are those of the last row that gives the name for that race |
| `OddsAggregator.RacesIndependent` | electionodds.py:103-110 | two pages that scrape and agree row by row on one race's cell pair give that race the same map, whatever their other cells |

## Left out

- `_fetch_page` and `requests.get` (electionodds.py:71-84, 96): network I/O. Its errors are raised outside the `try`. The model starts from the table's rows.
- lxml's `fromstring` and the `cssselect` queries, including the `.auto-style4 tr` selector: library calls. They are replaced by the row, cell, image and paragraph datatypes.
- `float`: real floating-point parsing is not modelled. It is a parameter from strings to optional numbers, with `None` standing for `ValueError`. The model only tracks which string is passed to it.
- Odds are `real`, not IEEE doubles. Rounding, NaN and infinities are not modelled.
- `AttributeError` is caught, but no path in the abstract document raises it. The elements always have `get`, `text` and `cssselect`.
- The generator in `_scrape_odds` is lazy. It is modelled as the sequence of all rows' results. Because the loop stops at the first failure and scraping has no side effects, the rows after a failure make no difference.
- The `URL` constant and Python's exception class hierarchy: `ScraperError` is one datatype carrying its message.
- Insertion order of Python dicts: the maps are Dafny `map`s, which have no order.
